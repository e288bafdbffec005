/** The first high-level runner (src/run.rs): exit conditions and the shared observer state. */
module LegacyRun {
  import opened LegacyObs

  /** `ExitCondition`: exit once the iteration count reaches `n`. */
  datatype ExitCondition = ExitOnNIterations(n: nat)

  /** `ExitCondition::should_exit`. */
  function ShouldExit(c: ExitCondition, s: Summary): (b: bool)
    ensures b <==> c.n <= s.iterations
  {
    match c
    case ExitOnNIterations(n) => n <= s.iterations
  }

  /** Once a condition says exit, it keeps saying so for every later iteration count. */
  lemma ShouldExitMonotone(c: ExitCondition, s: Summary, t: Summary)
    requires s.iterations <= t.iterations
    requires ShouldExit(c, s)
    ensures ShouldExit(c, t)
  {
  }

  /** `ExitOnNIterations(0)` exits on every summary. */
  lemma ShouldExitZero(s: Summary)
    ensures ShouldExit(ExitOnNIterations(0), s)
  {
  }

  /** `SharedState`: the checker, the exit condition and the observer. */
  class SharedState {
    const checker: Checker
    const conds: ExitCondition
    const observer: Observer

    constructor (checker: Checker, conds: ExitCondition, observer: Observer)
      ensures this.checker == checker && this.conds == conds && this.observer == observer
    {
      this.checker := checker;
      this.conds := conds;
      this.observer := observer;
    }

    /**
     * `SharedState::handle`: observes the environment, then asks the exit
     * condition about the resulting summary; so the run should exit exactly
     * when the observer has now seen at least `n` iterations.
     */
    method Handle(env: Manifested) returns (shouldExit: bool)
      requires observer.Valid()
      modifies observer
      ensures observer.Valid()
      ensures observer.history == old(observer.history) + [(CurrentState(env), checker(env.env))]
      ensures shouldExit <==> conds.n <= |observer.history|
    {
      var summary := observer.Observe(env, checker);
      shouldExit := ShouldExit(conds, summary);
    }
  }
}
