/**
 * The run conditions the argument parsers build (`run::Condition`): every
 * `n` iterations, halt the test in the given way.
 */
module RunCondition {
  import opened Prim
  import Fsa

  datatype Condition = EveryNIterations(n: usize, t: Fsa.ExitType)
}

/** The synchroniser factories of the first automaton generation (`fsa::sync::Factory`). */
module FsaSync {
  datatype Factory = MakeSpinner | MakeBarrier
}

/**
 * Command-line arguments of the first harness front end (src/ux/args.rs):
 * the input, the synchronisation method, the iteration count and the
 * rotation period, and the run conditions they give.
 */
module UxArgs {
  import opened Prim
  import opened Wrappers
  import Text
  import Fsa
  import RunCondition
  import FsaSync
  import ConfigClap

  const SYNC_SPINNER: string := "spinner"
  const SYNC_BARRIER: string := "barrier"
  const SYNC_ALL: seq<string> := [SYNC_SPINNER, SYNC_BARRIER]

  /** `Error`: a bad synchronisation method, or a bad number in either of two places. */
  datatype Error = BadSyncMethod(s: string) | BadIterationCount(kind: Text.IntErrorKind) | BadParseCount(kind: Text.IntErrorKind)

  /** `SyncMethod`. */
  datatype SyncMethod = Spinner | Barrier

  /** `SyncMethod::from_str`: the two names, exactly; anything else is kept in the error. */
  function SyncFromStr(s: string): (r: Result<SyncMethod, Error>)
    ensures r == Ok(Spinner) <==> s == SYNC_SPINNER
    ensures r == Ok(Barrier) <==> s == SYNC_BARRIER
    ensures r.Err? <==> s !in SYNC_ALL
    ensures r.Err? ==> r.error == BadSyncMethod(s)
  {
    if s == SYNC_SPINNER then Ok(Spinner)
    else if s == SYNC_BARRIER then Ok(Barrier)
    else Err(BadSyncMethod(s))
  }

  /** `Args`. */
  datatype Args = Args(input: string, sync: SyncMethod, iterations: usize, period: usize)

  /**
   * `Args::parse`: the input, the iteration count, a period read from the
   * very same iteration string, and the synchronisation method. The command
   * line always carries the three arguments read (the input is required and
   * the other two have defaults), since a missing one is a panic.
   */
  function Parse(m: ConfigClap.ArgMatches): (r: Result<Args, Error>)
    requires ConfigClap.INPUT in m && ConfigClap.ITERATIONS in m && ConfigClap.SYNC in m
    ensures Text.ParseUsize(m[ConfigClap.ITERATIONS]).Err? ==>
              r == Err(BadIterationCount(Text.ParseUsize(m[ConfigClap.ITERATIONS]).error))
    ensures Text.ParseUsize(m[ConfigClap.ITERATIONS]).Ok? ==>
              r == SyncFromStr(m[ConfigClap.SYNC]).Map((s: SyncMethod) =>
                     Args(m[ConfigClap.INPUT], s, Text.ParseUsize(m[ConfigClap.ITERATIONS]).value,
                          Text.ParseUsize(m[ConfigClap.ITERATIONS]).value))
    ensures r.Ok? ==> r.value.period == r.value.iterations
    ensures !(r.Err? && r.error.BadParseCount?)
  {
    var input := m[ConfigClap.INPUT];
    var nstr := m[ConfigClap.ITERATIONS];
    var iterations := Text.ParseUsize(nstr).MapErr(e => BadIterationCount(e));
    if iterations.Err? then Err(iterations.error)
    else
      match Text.ParseUsize(nstr).MapErr(e => BadParseCount(e))
      case Err(e) => Err(e)
      case Ok(period) =>
        var sync := SyncFromStr(m[ConfigClap.SYNC]);
        if sync.Err? then Err(sync.error)
        else Ok(Args(input, sync.value, iterations.value, period))
  }

  /**
   * `Args::conds`: an exit rule at the iteration count unless it is zero,
   * then a rotation rule at the period when the period lies strictly between
   * zero and the iteration count.
   */
  method Conds(a: Args) returns (v: seq<RunCondition.Condition>)
    ensures forall c :: c in v <==>
              (c == RunCondition.EveryNIterations(a.iterations, Fsa.Exit) && a.iterations != 0)
              || (c == RunCondition.EveryNIterations(a.period, Fsa.Rotate) && 0 < a.period < a.iterations)
    ensures |v| == (if a.iterations != 0 then 1 else 0) + (if 0 < a.period < a.iterations then 1 else 0)
    ensures |v| == 2 ==> v[0].t == Fsa.Exit && v[1].t == Fsa.Rotate
  {
    v := [];
    if a.iterations != 0 {
      v := v + [RunCondition.EveryNIterations(a.iterations, Fsa.Exit)];
    }
    if 0 < a.period && a.period < a.iterations {
      v := v + [RunCondition.EveryNIterations(a.period, Fsa.Rotate)];
    }
  }

  /** Arguments `Parse` produces never ask for rotation: the period equals the iteration count. */
  method ParsedConds(m: ConfigClap.ArgMatches) returns (v: Result<seq<RunCondition.Condition>, Error>)
    requires ConfigClap.INPUT in m && ConfigClap.ITERATIONS in m && ConfigClap.SYNC in m
    ensures v.Ok? <==> Parse(m).Ok?
    ensures v.Ok? ==> forall c :: c in v.value ==> c.t == Fsa.Exit
    ensures v.Ok? ==> (|v.value| == 1 <==> Parse(m).value.iterations != 0)
  {
    var a := Parse(m);
    if a.Err? {
      return Err(a.error);
    }
    var cs := Conds(a.value);
    v := Ok(cs);
  }

  /** `Args::sync_factory`. */
  function SyncFactory(a: Args): (f: FsaSync.Factory)
    ensures f == FsaSync.MakeBarrier <==> a.sync == Barrier
    ensures f == FsaSync.MakeSpinner <==> a.sync == Spinner
  {
    match a.sync
    case Barrier => FsaSync.MakeBarrier
    case Spinner => FsaSync.MakeSpinner
  }

}
