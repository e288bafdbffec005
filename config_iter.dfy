/** Iteration counts and rotation periods (src/config/iter.rs). */
module ConfigIter {
  import opened Prim
  import opened Wrappers
  import Halt
  import HaltRule

  const DEFAULT_ITERATIONS: usize := 1_000_000
  const DEFAULT_PERIOD: usize := 100_000

  /** `Strategy`: no iteration halting, exit after a count, or exit and rotate periodically. */
  datatype Strategy =
    | NoHalt
    | Exit(iterations: NonZeroUsize)
    | ExitAndRotate(iterations: NonZeroUsize, period: NonZeroUsize)

  /** `Strategy::from_ints`: zero iterations means no halting; a zero period means no rotation. */
  function FromInts(iterations: usize, period: usize): (s: Strategy)
    ensures Iterations(s) == if iterations == 0 then None else Some(iterations)
    ensures Period(s) == if iterations == 0 || period == 0 then None else Some(period)
  {
    if iterations == 0 then NoHalt
    else if period == 0 then Exit(iterations)
    else ExitAndRotate(iterations, period)
  }

  /** `Strategy::iterations`. */
  function Iterations(s: Strategy): (r: Option<NonZeroUsize>)
    ensures r.None? <==> s.NoHalt?
  {
    match s
    case Exit(i) => Some(i)
    case ExitAndRotate(i, _) => Some(i)
    case NoHalt => None
  }

  /** `Strategy::period`. */
  function Period(s: Strategy): (r: Option<NonZeroUsize>)
    ensures r.Some? <==> s.ExitAndRotate?
  {
    match s
    case ExitAndRotate(_, p) => Some(p)
    case _ => None
  }

  /** `Default`: exit after a million iterations, rotating every hundred thousand. */
  function Default(): (s: Strategy)
    ensures s == ExitAndRotate(DEFAULT_ITERATIONS, DEFAULT_PERIOD)
  {
    FromInts(DEFAULT_ITERATIONS, DEFAULT_PERIOD)
  }

  /** `Strategy::halt_rules`: an exit rule every `iterations`, then a rotate rule every `period`. */
  function HaltRules(s: Strategy): (rs: seq<HaltRule.Rule>)
    ensures |rs| <= 2
    ensures |rs| >= 1 <==> Iterations(s).Some?
    ensures |rs| >= 1 ==> rs[0] == HaltRule.ExitRule(HaltRule.EveryNIterations(Iterations(s).value))
    ensures |rs| == 2 <==> Period(s).Some?
    ensures |rs| == 2 ==> rs[1] == HaltRule.RotateRule(HaltRule.EveryNIterations(Period(s).value))
  {
    var iRule := match Iterations(s)
      case Some(x) => [HaltRule.ExitRule(HaltRule.EveryNIterations(x))]
      case None => [];
    var pRule := match Period(s)
      case Some(x) => [HaltRule.RotateRule(HaltRule.EveryNIterations(x))]
      case None => [];
    iRule + pRule
  }
}
