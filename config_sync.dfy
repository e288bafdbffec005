/** Synchronisation strategies (src/config/sync.rs). */
module ConfigSync {
  import opened Wrappers
  import ConfigErr

  const SPINNER: string := "spinner"
  const SPIN_BARRIER: string := "spin-barrier"
  const BARRIER: string := "barrier"
  /** `string::ALL`. */
  const ALL: seq<string> := [SPINNER, SPIN_BARRIER, BARRIER]

  datatype Strategy = Spinner | SpinBarrier | Barrier

  /** The synchroniser factories a strategy can select. */
  datatype Factory = MakeSpinner | MakeSpinBarrier | MakeBarrier

  /** `Default`: the spinner. */
  function Default(): (s: Strategy)
    ensures ToString(s) == SPINNER && ToFactory(s) == MakeSpinner
  {
    Spinner
  }

  /** `Display`. */
  function ToString(s: Strategy): (r: string)
    ensures r in ALL
  {
    match s
    case Spinner => SPINNER
    case SpinBarrier => SPIN_BARRIER
    case Barrier => BARRIER
  }

  /** `FromStr`: exact, case-sensitive names; any other string is an error carrying it verbatim. */
  function FromStr(s: string): (r: Result<Strategy, ConfigErr.Error>)
    ensures r.Ok? <==> s in ALL
    ensures r.Err? ==> r.error == ConfigErr.BadSyncStrategy(s)
  {
    if s == SPINNER then Ok(Spinner)
    else if s == SPIN_BARRIER then Ok(SpinBarrier)
    else if s == BARRIER then Ok(Barrier)
    else Err(ConfigErr.BadSyncStrategy(s))
  }

  /** Printing then parsing gives the strategy back. */
  lemma FromStrToString(s: Strategy)
    ensures FromStr(ToString(s)) == Ok(s)
  {
  }

  /** Parsing then printing gives the input back. */
  lemma ToStringFromStr(s: string)
    requires FromStr(s).Ok?
    ensures ToString(FromStr(s).value) == s
  {
  }

  /** `Strategy::all`. */
  function All(): (r: seq<Strategy>)
    ensures Spinner in r && SpinBarrier in r && Barrier in r
    ensures |r| == 3
  {
    [Spinner, SpinBarrier, Barrier]
  }

  /** The strings of `all()` are exactly `string::ALL`. */
  lemma AllStringsInSync()
    ensures (set s | s in All() :: ToString(s)) == (set x | x in ALL)
  {
    var a := All();
    forall x | x in ALL ensures x in set s | s in a :: ToString(s) {
      var i :| 0 <= i < |ALL| && ALL[i] == x;
      assert ToString(a[i]) == x;
    }
  }

  /** `Strategy::to_factory`. */
  function ToFactory(s: Strategy): (f: Factory)
    ensures s == Barrier <==> f == MakeBarrier
    ensures s == SpinBarrier <==> f == MakeSpinBarrier
    ensures s == Spinner <==> f == MakeSpinner
  {
    match s
    case Barrier => MakeBarrier
    case SpinBarrier => MakeSpinBarrier
    case Spinner => MakeSpinner
  }
}
