/**
 * Outcomes of running checks on observations (src/model/outcome.rs), and
 * the older two-valued check outcome (src/model/check.rs).
 */
module ModelOutcome {
  import opened Wrappers
  import opened Text

  /** Declared in the order Pass < Fail < Unknown, which the derived `Ord` follows. */
  datatype Outcome = Pass | Fail | Unknown

  function Rank(o: Outcome): nat {
    match o
    case Pass => 0
    case Fail => 1
    case Unknown => 2
  }

  /** The derived `PartialOrd`/`Ord`: `a <= b`. */
  predicate Le(a: Outcome, b: Outcome) {
    Rank(a) <= Rank(b)
  }

  predicate Lt(a: Outcome, b: Outcome) {
    Rank(a) < Rank(b)
  }

  /** The order is total and antisymmetric, and Pass < Fail < Unknown. */
  lemma OrderIsTotal(a: Outcome, b: Outcome)
    ensures Le(a, b) || Le(b, a)
    ensures Le(a, b) && Le(b, a) ==> a == b
    ensures Lt(Pass, Fail) && Lt(Fail, Unknown)
  {
  }

  /** `Ord::max`. */
  function Max(a: Outcome, b: Outcome): (r: Outcome)
    ensures Le(a, r) && Le(b, r)
    ensures r == a || r == b
  {
    if Le(b, a) then a else b
  }

  /** `Ord::max` on `Option<Outcome>`, where `None` is below every `Some`. */
  function MaxOpt(a: Option<Outcome>, b: Option<Outcome>): (r: Option<Outcome>)
    ensures r.None? <==> a.None? && b.None?
    ensures a.Some? ==> r.Some? && Le(a.value, r.value)
    ensures b.Some? ==> r.Some? && Le(b.value, r.value)
    ensures r == a || r == b
  {
    match (a, b)
    case (None, _) => b
    case (_, None) => a
    case (Some(x), Some(y)) => Some(Max(x, y))
  }

  /** `Iterator::max` over outcomes. */
  function MaxOf(s: seq<Outcome>): (r: Option<Outcome>)
    ensures r.None? <==> |s| == 0
    ensures r.Some? ==> r.value in s
    ensures r.Some? ==> forall i :: 0 <= i < |s| ==> Le(s[i], r.value)
  {
    if |s| == 0 then None
    else MaxOpt(MaxOf(s[..|s| - 1]), Some(s[|s| - 1]))
  }

  /**
   * What the type's documentation promises of `max`: `None` if there are no
   * outcomes, `Unknown` if any is unknown, `Pass` if all pass, `Fail` otherwise.
   */
  lemma MaxOfMeaning(s: seq<Outcome>)
    ensures MaxOf(s) == None <==> |s| == 0
    ensures MaxOf(s) == Some(Unknown) <==> Unknown in s
    ensures MaxOf(s) == Some(Pass) <==> |s| > 0 && forall i :: 0 <= i < |s| ==> s[i] == Pass
    ensures MaxOf(s) == Some(Fail) <==> Fail in s && Unknown !in s
  {
  }

  /** The five cases the module's own tests check. */
  lemma MaxOfExamples()
    ensures MaxOf([]) == None
    ensures MaxOf([Pass, Pass, Pass]) == Some(Pass)
    ensures MaxOf([Fail, Fail, Fail]) == Some(Fail)
    ensures MaxOf([Pass, Fail, Pass]) == Some(Fail)
    ensures MaxOf([Unknown, Fail, Pass]) == Some(Unknown)
  {
    MaxOfMeaning([Pass, Pass, Pass]);
    MaxOfMeaning([Fail, Fail, Fail]);
    MaxOfMeaning([Pass, Fail, Pass]);
    MaxOfMeaning([Unknown, Fail, Pass]);
  }

  const PASS: string := "pass"
  const FAIL: string := "fail"
  const UNKNOWN: string := "unknown"

  /** `Display`. */
  function ToString(o: Outcome): (s: string)
    ensures IsLower(s)
  {
    match o
    case Pass => PASS
    case Fail => FAIL
    case Unknown => UNKNOWN
  }

  /** `FromStr`: lowercase, then match; the error is the lowercased input. */
  function FromStr(s: string): (r: Result<Outcome, string>)
    ensures r.Err? ==> r.error == Lower(s)
  {
    var lc := Lower(s);
    if lc == PASS then Ok(Pass)
    else if lc == FAIL then Ok(Fail)
    else if lc == UNKNOWN then Ok(Unknown)
    else Err(lc)
  }

  /** Printing then parsing gives the outcome back. */
  lemma FromStrToString(o: Outcome)
    ensures FromStr(ToString(o)) == Ok(o)
  {
    LowerOfLower(ToString(o));
  }

  /** Parsing succeeds exactly on the printed forms, in any ASCII case. */
  lemma FromStrOk(s: string, o: Outcome)
    ensures FromStr(s) == Ok(o) <==> Lower(s) == ToString(o)
  {
  }

  /** Parsing ignores ASCII case. */
  lemma FromStrCaseInsensitive(s: string)
    ensures FromStr(s) == FromStr(Lower(s))
  {
    LowerIdempotent(s);
  }

  /** `Default`. */
  function Default(): (o: Outcome)
    ensures forall x :: Le(x, o)
  {
    Unknown
  }

  /** `Outcome::all`. */
  function All(): (r: seq<Outcome>)
    ensures |r| == 3
    ensures Pass in r && Fail in r && Unknown in r
    ensures forall i, j :: 0 <= i < j < |r| ==> r[i] != r[j]
  {
    [Pass, Fail, Unknown]
  }

  /** `Outcome::from_pass_bool`. */
  function FromPassBool(isPass: bool): (o: Outcome)
    ensures o != Unknown
    ensures o == Pass <==> isPass
  {
    if isPass then Pass else Fail
  }
}

/** src/model/check.rs: the earlier pass/fail outcome. */
module ModelCheck {
  datatype Outcome = Passed | Failed

  /** `Outcome::from_pass_bool`. */
  function FromPassBool(isPass: bool): (o: Outcome)
    ensures o == Passed <==> isPass
  {
    if isPass then Passed else Failed
  }
}
