/** Thread permutation strategies (src/config/permute.rs). */
module ConfigPermute {
  import opened Wrappers
  import ConfigErr

  const RANDOM: string := "random"
  const STATIC: string := "static"
  /** `string::ALL`. */
  const ALL: seq<string> := [RANDOM, STATIC]

  datatype Strategy = Random | Static

  /** `Default`: random permutation. */
  function Default(): (s: Strategy)
    ensures ToString(s) == RANDOM && ToPermuter(s) == ThreadRng
  {
    Random
  }

  /** `Display`. */
  function ToString(s: Strategy): (r: string)
    ensures r in ALL
  {
    match s
    case Random => RANDOM
    case Static => STATIC
  }

  /** `FromStr`: exact names; any other string is an error carrying it verbatim. */
  function FromStr(s: string): (r: Result<Strategy, ConfigErr.Error>)
    ensures r.Ok? <==> s in ALL
    ensures r.Err? ==> r.error == ConfigErr.BadPermuteStrategy(s)
  {
    if s == RANDOM then Ok(Random)
    else if s == STATIC then Ok(Static)
    else Err(ConfigErr.BadPermuteStrategy(s))
  }

  /** Printing then parsing gives the strategy back. */
  lemma FromStrToString(s: Strategy)
    ensures FromStr(ToString(s)) == Ok(s)
  {
  }

  /** Parsing then printing gives the input back. */
  lemma ToStringFromStr(s: string)
    requires FromStr(s).Ok?
    ensures ToString(FromStr(s).value) == s
  {
  }

  /** `Strategy::all`. */
  function All(): (r: seq<Strategy>)
    ensures Random in r && Static in r
    ensures |r| == 2
  {
    [Random, Static]
  }

  /** The strings of `all()` are exactly `string::ALL`. */
  lemma AllStringsInSync()
    ensures (set s | s in All() :: ToString(s)) == (set x | x in ALL)
  {
    var a := All();
    forall x | x in ALL ensures x in set s | s in a :: ToString(s) {
      var i :| 0 <= i < |ALL| && ALL[i] == x;
      assert ToString(a[i]) == x;
    }
  }

  /** The permuters a strategy can select: the thread-local random generator, or the no-op permuter. */
  datatype Permuter = ThreadRng | Nop

  /** `Strategy::to_permuter`: only the static strategy leaves the thread order alone. */
  function ToPermuter(s: Strategy): (p: Permuter)
    ensures p == Nop <==> s == Static
    ensures p == ThreadRng <==> s == Random
  {
    match s
    case Random => ThreadRng
    case Static => Nop
  }
}
