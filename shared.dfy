/** The state shared by runner threads when they become the observer (src/run/shared.rs). */
module Shared {
  import opened Wrappers
  import opened AbsCheck
  import RunObs
  import RustEnv
  import Halt
  import HaltRule

  /** The types of the rules that fire for the summary, in rule order (`filter_map`). */
  function FiredTypes(rules: seq<HaltRule.Rule>, s: RunObs.Summary): (ts: seq<Halt.Type>)
    ensures forall t :: t in ts ==> exists r :: r in rules && HaltRule.Fires(r.condition, s) && r.ty == t
    ensures forall r :: r in rules && HaltRule.Fires(r.condition, s) ==> r.ty in ts
  {
    if |rules| == 0 then []
    else
      var init := rules[..|rules| - 1];
      var last := rules[|rules| - 1];
      assert rules == init + [last];
      var rest := FiredTypes(init, s);
      match HaltRule.RuleExitType(last, s)
      case Some(t) => rest + [t]
      case None => rest
  }

  /**
   * `State::exit_type`: the greatest type among the rules that fire; `None`
   * when no rule fires, and `Exit` as soon as any firing rule says exit.
   */
  function ExitType(rules: seq<HaltRule.Rule>, s: RunObs.Summary): (t: Option<Halt.Type>)
    ensures t.None? <==> forall r :: r in rules ==> !HaltRule.Fires(r.condition, s)
    ensures t.Some? ==> exists r :: r in rules && HaltRule.Fires(r.condition, s) && r.ty == t.value
    ensures (exists r :: r in rules && HaltRule.Fires(r.condition, s) && r.ty == Halt.Exit) ==> t == Some(Halt.Exit)
  {
    var ts := FiredTypes(rules, s);
    assert forall r :: r in rules && HaltRule.Fires(r.condition, s) ==> r.ty in ts;
    Halt.MaxOf(ts)
  }

  /** With no halt rules, the test never halts of its own accord. */
  lemma NoRulesNoHalt(s: RunObs.Summary)
    ensures ExitType([], s) == None
  {
  }

  /** `shared::State`: the checker, the manifested environment, the halt rules and the observer. */
  class State {
    const checker: Checker<RustEnv.Contents>
    const env: RunObs.Manifested
    const haltRules: seq<HaltRule.Rule>
    const observer: RunObs.Observer

    ghost predicate Valid()
      reads this, env, env.env, env.env.i32s, observer
    {
      env.Valid() && observer.Valid()
    }

    constructor (checker: Checker<RustEnv.Contents>, env: RunObs.Manifested, haltRules: seq<HaltRule.Rule>, observer: RunObs.Observer)
      ensures this.checker == checker && this.env == env && this.haltRules == haltRules && this.observer == observer
    {
      this.checker := checker;
      this.env := env;
      this.haltRules := haltRules;
      this.observer := observer;
    }

    /**
     * `State::observe`: the observer records the current state first, then
     * the environment is reset, and the rules are asked about the summary.
     */
    method Observe() returns (t: Option<Halt.Type>)
      requires Valid()
      modifies observer, env.env.i32s.atomic, env.env.i32s.nonAtomic
      ensures Valid()
      ensures observer.history == old(observer.history) + [(old(env.CurrentState()), Check(checker, old(env.env.Snapshot())))]
      ensures env.env.Snapshot() == RunObs.ResetAll(old(env.env.Snapshot()), env.manifest.i32s)
      ensures t == ExitType(haltRules, RunObs.Summary(observer.iterations, observer.obs[old(env.CurrentState())]))
    {
      var summary := observer.Observe(env, checker);
      env.Reset();
      t := ExitType(haltRules, summary);
    }
  }
}
