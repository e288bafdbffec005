/** Output choices selectable on the command line (src/ux/out/choice.rs). */
module OutChoice {
  import opened Wrappers
  import opened Text
  import OutErr

  const HISTOGRAM: string := "histogram"
  const JSON: string := "json"
  /** `string::ALL`. */
  const ALL: seq<string> := [HISTOGRAM, JSON]

  /** `Choice`: the histogram or the JSON outputter. */
  datatype Choice = Histogram | Json

  /** `Default`: the histogram. */
  function Default(): (c: Choice)
    ensures FromStr(HISTOGRAM) == Ok(c)
  {
    Histogram
  }

  /**
   * `FromStr`: the lowercased input must be one of the choice names; an error
   * carries the lowercased input.
   */
  function FromStr(s: string): (r: Result<Choice, OutErr.Error>)
    ensures r.Ok? <==> Lower(s) in ALL
    ensures r.Ok? ==> (r.value == Histogram <==> Lower(s) == HISTOGRAM)
    ensures r.Err? ==> r.error == OutErr.BadOutputter(Lower(s))
  {
    var su := Lower(s);
    if su == HISTOGRAM then Ok(Histogram)
    else if su == JSON then Ok(Json)
    else Err(OutErr.BadOutputter(su))
  }

  /** Parsing ignores case. */
  lemma FromStrCaseInsensitive(s: string)
    ensures FromStr(s) == FromStr(Lower(s))
  {
    LowerIdempotent(s);
  }

  /** Every string of `string::ALL` parses, and each choice is named by exactly one of them. */
  lemma AllParse()
    ensures forall x :: x in ALL ==> FromStr(x).Ok?
    ensures FromStr(ALL[0]) == Ok(Histogram) && FromStr(ALL[1]) == Ok(Json)
  {
    LowerOfLower(HISTOGRAM);
    LowerOfLower(JSON);
  }
}

/**
 * The later output configuration (src/ux/out/config.rs): its own copy of the
 * outputter choice, and a configuration pairing a choice with a writer.
 */
module OutConfig {
  import opened Wrappers
  import opened Text
  import OutErr

  const HISTOGRAM: string := "histogram"
  const JSON: string := "json"
  /** `string::ALL`. */
  const ALL: seq<string> := [HISTOGRAM, JSON]

  /** `Choice`: the histogram or the JSON outputter. */
  datatype Choice = Histogram | Json

  /** `Default` for `Choice`: the histogram. */
  function DefaultChoice(): (c: Choice)
    ensures FromStr(HISTOGRAM) == Ok(c)
  {
    Histogram
  }

  /** `FromStr`: as for the earlier choice, case-insensitive, with the lowercased input in the error. */
  function FromStr(s: string): (r: Result<Choice, OutErr.Error>)
    ensures r.Ok? <==> Lower(s) in ALL
    ensures r.Ok? ==> (r.value == Histogram <==> Lower(s) == HISTOGRAM)
    ensures r.Err? ==> r.error == OutErr.BadOutputter(Lower(s))
  {
    var su := Lower(s);
    if su == HISTOGRAM then Ok(Histogram)
    else if su == JSON then Ok(Json)
    else Err(OutErr.BadOutputter(su))
  }

  /** Parsing ignores case. */
  lemma FromStrCaseInsensitive(s: string)
    ensures FromStr(s) == FromStr(Lower(s))
  {
    LowerIdempotent(s);
  }

  /** Every string of `string::ALL` parses, and each choice is named by exactly one of them. */
  lemma AllParse()
    ensures forall x :: x in ALL ==> FromStr(x).Ok?
    ensures FromStr(ALL[0]) == Ok(Histogram) && FromStr(ALL[1]) == Ok(Json)
  {
    LowerOfLower(HISTOGRAM);
    LowerOfLower(JSON);
  }

  /** Where output goes; only standard output is constructed by default. */
  datatype Writer = Stdout | Other(id: nat)

  /** `Config`: the outputter choice and the writer. */
  datatype Config = Config(choice: Choice, writer: Writer)

  /** `Default` for `Config`: the default choice, writing to standard output. */
  function Default(): (c: Config)
    ensures c.choice == DefaultChoice() && c.writer == Stdout
  {
    Config(Histogram, Stdout)
  }
}
