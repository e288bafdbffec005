/**
 * Command-line arguments of the original executable (src/main.rs): the same
 * shape as the later front end, but a rotation rule whenever the period is
 * not zero, and test errors wrapped into the argument error.
 */
module MainArgs {
  import opened Prim
  import opened Wrappers
  import Text
  import Err
  import Fsa
  import RunCondition
  import FsaSync
  import ConfigClap

  const SYNC_SPINNER: string := "spinner"
  const SYNC_BARRIER: string := "barrier"
  const SYNC_ALL: seq<string> := [SYNC_SPINNER, SYNC_BARRIER]

  /** `Error`: the three argument errors, and an error running the test. */
  datatype Error =
    | BadSyncMethod(s: string)
    | BadIterationCount(kind: Text.IntErrorKind)
    | BadParseCount(kind: Text.IntErrorKind)
    | RunningTest(e: Err.Error)

  /** `From<err::Error>`: a test error is kept inside `RunningTest`. */
  function FromErr(e: Err.Error): (r: Error)
    ensures r.RunningTest? && r.e == e
  {
    RunningTest(e)
  }

  datatype SyncMethod = Spinner | Barrier

  /** `SyncMethod::from_str`: the two names, exactly; anything else is kept in the error. */
  function SyncFromStr(s: string): (r: Result<SyncMethod, Error>)
    ensures r == Ok(Spinner) <==> s == SYNC_SPINNER
    ensures r == Ok(Barrier) <==> s == SYNC_BARRIER
    ensures r.Err? <==> s !in SYNC_ALL
    ensures r.Err? ==> r.error == BadSyncMethod(s)
  {
    if s == SYNC_SPINNER then Ok(Spinner)
    else if s == SYNC_BARRIER then Ok(Barrier)
    else Err(BadSyncMethod(s))
  }

  datatype Args = Args(input: string, sync: SyncMethod, iterations: usize, period: usize)

  /**
   * `Args::parse`: as in the later front end, the period is read from the
   * iteration string; the `period` argument itself is never consulted.
   */
  function Parse(m: ConfigClap.ArgMatches): (r: Result<Args, Error>)
    requires ConfigClap.INPUT in m && ConfigClap.ITERATIONS in m && ConfigClap.SYNC in m
    ensures Text.ParseUsize(m[ConfigClap.ITERATIONS]).Err? ==>
              r == Err(BadIterationCount(Text.ParseUsize(m[ConfigClap.ITERATIONS]).error))
    ensures Text.ParseUsize(m[ConfigClap.ITERATIONS]).Ok? ==>
              r == SyncFromStr(m[ConfigClap.SYNC]).Map((s: SyncMethod) =>
                     Args(m[ConfigClap.INPUT], s, Text.ParseUsize(m[ConfigClap.ITERATIONS]).value,
                          Text.ParseUsize(m[ConfigClap.ITERATIONS]).value))
    ensures r.Ok? ==> r.value.period == r.value.iterations
  {
    var input := m[ConfigClap.INPUT];
    var nstr := m[ConfigClap.ITERATIONS];
    var iterations := Text.ParseUsize(nstr).MapErr(e => BadIterationCount(e));
    if iterations.Err? then Err(iterations.error)
    else
      match Text.ParseUsize(nstr).MapErr(e => BadParseCount(e))
      case Err(e) => Err(e)
      case Ok(period) =>
        var sync := SyncFromStr(m[ConfigClap.SYNC]);
        if sync.Err? then Err(sync.error)
        else Ok(Args(input, sync.value, iterations.value, period))
  }

  /** The `period` argument has no say in what `Parse` gives. */
  lemma ParseIgnoresPeriod(m: ConfigClap.ArgMatches, p: string)
    requires ConfigClap.INPUT in m && ConfigClap.ITERATIONS in m && ConfigClap.SYNC in m
    ensures Parse(m[ConfigClap.PERIOD := p]) == Parse(m)
  {
  }

  /** `Args::conds`: an exit rule unless the iteration count is zero, then a rotation rule unless the period is. */
  method Conds(a: Args) returns (v: seq<RunCondition.Condition>)
    ensures forall c :: c in v <==>
              (c == RunCondition.EveryNIterations(a.iterations, Fsa.Exit) && a.iterations != 0)
              || (c == RunCondition.EveryNIterations(a.period, Fsa.Rotate) && a.period != 0)
    ensures |v| == (if a.iterations != 0 then 1 else 0) + (if a.period != 0 then 1 else 0)
    ensures |v| == 2 ==> v[0].t == Fsa.Exit && v[1].t == Fsa.Rotate
  {
    v := [];
    if a.iterations != 0 {
      v := v + [RunCondition.EveryNIterations(a.iterations, Fsa.Exit)];
    }
    if a.period != 0 {
      v := v + [RunCondition.EveryNIterations(a.period, Fsa.Rotate)];
    }
  }

  /**
   * Parsed arguments with a non-zero count ask both to exit and to rotate
   * after that many iterations; with a zero count they ask for nothing.
   */
  method ParsedConds(m: ConfigClap.ArgMatches) returns (v: Result<seq<RunCondition.Condition>, Error>)
    requires ConfigClap.INPUT in m && ConfigClap.ITERATIONS in m && ConfigClap.SYNC in m
    ensures v.Ok? <==> Parse(m).Ok?
    ensures v.Ok? && Parse(m).value.iterations != 0 ==>
              v.value == [RunCondition.EveryNIterations(Parse(m).value.iterations, Fsa.Exit),
                          RunCondition.EveryNIterations(Parse(m).value.iterations, Fsa.Rotate)]
    ensures v.Ok? && Parse(m).value.iterations == 0 ==> v.value == []
  {
    var a := Parse(m);
    if a.Err? {
      return Err(a.error);
    }
    var cs := Conds(a.value);
    if |cs| == 2 {
      assert cs[0] in cs && cs[1] in cs;
    }
    v := Ok(cs);
  }

  /** `Args::sync_factory`. */
  function SyncFactory(a: Args): (f: FsaSync.Factory)
    ensures f == FsaSync.MakeBarrier <==> a.sync == Barrier
    ensures f == FsaSync.MakeSpinner <==> a.sync == Spinner
  {
    match a.sync
    case Barrier => FsaSync.MakeBarrier
    case Spinner => FsaSync.MakeSpinner
  }
}
