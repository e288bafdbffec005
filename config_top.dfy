/** The top-level configuration (src/config/top.rs). */
module ConfigTop {
  import ConfigPermute
  import ConfigSync
  import ConfigCheck
  import ConfigIter
  import Halt
  import HaltRule

  /** `Config`: the four strategies. */
  datatype Config = Config(
    permute: ConfigPermute.Strategy,
    sync: ConfigSync.Strategy,
    check: ConfigCheck.Strategy,
    iter: ConfigIter.Strategy)

  /** The derived `Default`: every field at its own default. */
  function Default(): (c: Config)
    ensures c.permute == ConfigPermute.Random && c.sync == ConfigSync.Spinner
    ensures c.check == ConfigCheck.Report
    ensures c.iter == ConfigIter.ExitAndRotate(ConfigIter.DEFAULT_ITERATIONS, ConfigIter.DEFAULT_PERIOD)
  {
    Config(ConfigPermute.Default(), ConfigSync.Default(), ConfigCheck.Default(), ConfigIter.Default())
  }

  /** `Config::halt_rules`: the iteration rules, then the check rules. */
  function HaltRules(c: Config): (rs: seq<HaltRule.Rule>)
    ensures forall r :: r in rs && r.condition.OnOutcome? ==>
              c.check.ExitOn? && r == HaltRule.ExitRule(HaltRule.OnOutcome(c.check.o))
    ensures forall r :: r in rs && r.ty == Halt.Rotate ==>
              c.iter.ExitAndRotate? && r.condition == HaltRule.EveryNIterations(c.iter.period)
  {
    ConfigIter.HaltRules(c.iter) + ConfigCheck.HaltRules(c.check)
  }

  /**
   * At most three rules; the check strategy adds a rule only when it is
   * exit-on, and then the exit-on-outcome rule comes last.
   */
  lemma HaltRulesShape(c: Config)
    ensures |HaltRules(c)| <= 3
    ensures !c.check.ExitOn? ==> HaltRules(c) == ConfigIter.HaltRules(c.iter)
    ensures c.check.ExitOn? ==> HaltRules(c)[|HaltRules(c)| - 1] == HaltRule.ExitRule(HaltRule.OnOutcome(c.check.o))
  {
  }

  /** The default configuration halts after a million iterations and rotates every hundred thousand. */
  lemma DefaultHaltRules()
    ensures HaltRules(Default()) == [
      HaltRule.ExitRule(HaltRule.EveryNIterations(ConfigIter.DEFAULT_ITERATIONS)),
      HaltRule.RotateRule(HaltRule.EveryNIterations(ConfigIter.DEFAULT_PERIOD))]
  {
  }
}
