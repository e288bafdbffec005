/** Ways to halt a running test (src/run/halt.rs). */
module Halt {
  import opened Prim
  import opened Wrappers
  import RunObs

  /** `Type`: how the test halts; exiting is greater than rotating. */
  datatype Type = Rotate | Exit

  /** The derived order: `Rotate < Exit`. */
  predicate Le(a: Type, b: Type) {
    a == Rotate || b == Exit
  }

  /** `Rotate` is the only type strictly below `Exit`, and the order is total. */
  lemma OrderFacts(a: Type, b: Type)
    ensures Le(Rotate, Exit) && !Le(Exit, Rotate)
    ensures Le(a, b) || Le(b, a)
    ensures Le(a, b) && Le(b, a) ==> a == b
  {
  }

  /** The larger of two types. */
  function Max(a: Type, b: Type): (m: Type)
    ensures Le(a, m) && Le(b, m)
    ensures m == a || m == b
  {
    if a == Exit || b == Exit then Exit else Rotate
  }

  /** `Iterator::max` over types: `None` when empty, else the greatest. */
  function MaxOf(s: seq<Type>): (m: Option<Type>)
    ensures m.None? <==> |s| == 0
    ensures m.Some? ==> m.value in s
    ensures m.Some? ==> forall t :: t in s ==> Le(t, m.value)
  {
    if |s| == 0 then None
    else
      var rest := MaxOf(s[..|s| - 1]);
      assert s == s[..|s| - 1] + [s[|s| - 1]];
      Some(if rest.None? then s[|s| - 1] else Max(rest.value, s[|s| - 1]))
  }

  /** `Type::to_u8`: the halt-state byte. */
  function ToU8(t: Type): (x: u8)
    ensures x == 1 || x == 2
  {
    match t
    case Rotate => 1
    case Exit => 2
  }

  /** `Type::from_u8`: the inverse of `to_u8`; every other byte means no halt. */
  function FromU8(x: u8): (t: Option<Type>)
    ensures x != 1 && x != 2 ==> t.None?
  {
    match x
    case 1 => Some(Rotate)
    case 2 => Some(Exit)
    case _ => None
  }

  /** Decoding an encoded type gives it back. */
  lemma FromU8ToU8(t: Type)
    ensures FromU8(ToU8(t)) == Some(t)
  {
  }

  /** Decoding succeeds exactly on the encodings, and encoding inverts it. */
  lemma ToU8FromU8(x: u8)
    ensures FromU8(x).Some? <==> (x == 1 || x == 2)
    ensures FromU8(x).Some? ==> ToU8(FromU8(x).value) == x
  {
  }

  /** `exit_if`. */
  function ExitIf(p: bool, ty: Type): (r: Option<Type>)
    ensures r.Some? <==> p
    ensures r.Some? ==> r.value == ty
  {
    if p then Some(ty) else None
  }

  /** `Condition`: halt with the given type whenever the iteration count is a multiple of `n`. */
  datatype Condition = EveryNIterations(n: usize, ty: Type)

  /** `Condition::exit_type`; `n` must not be zero (the remainder would panic). */
  function ConditionExitType(c: Condition, s: RunObs.Summary): (r: Option<Type>)
    requires c.n > 0
    ensures r.Some? <==> s.iterations % c.n == 0
    ensures r.Some? ==> r.value == c.ty
  {
    match c
    case EveryNIterations(n, et) => ExitIf(s.iterations % n == 0, et)
  }

  /** A condition gives the same answer `n` iterations later. */
  lemma ConditionPeriodic(c: Condition, s: RunObs.Summary, s': RunObs.Summary)
    requires c.n > 0
    requires s'.iterations == s.iterations + c.n
    ensures ConditionExitType(c, s') == ConditionExitType(c, s)
  {
    assert s'.iterations % c.n == s.iterations % c.n by {
      ModAddPeriod(s.iterations, c.n);
    }
  }

  /** Adding the modulus does not change the remainder. */
  lemma ModAddPeriod(i: nat, n: nat)
    requires n > 0
    ensures (i + n) % n == i % n
  {
    var q, r := i / n, i % n;
    assert i == q * n + r;
    assert i + n == (q + 1) * n + r;
    ModUnique(i + n, q + 1, n, r);
  }

  /** The remainder is the `r` of any decomposition `x == q * n + r` with `0 <= r < n`. */
  lemma ModUnique(x: int, q: int, n: int, r: int)
    requires n > 0 && 0 <= r < n && x == q * n + r
    ensures x % n == r
  {
    var q', r' := x / n, x % n;
    var d := q - q';
    assert d * n == r' - r by {
      assert x == q' * n + r';
      assert q * n - q' * n == (q - q') * n;
    }
    if d >= 1 {
      MulAtLeast(d, n);
    } else if d <= -1 {
      MulAtLeast(-d, n);
    }
  }

  /** A positive multiple of `n` is at least `n`. */
  lemma MulAtLeast(d: int, n: int)
    requires d >= 1 && n > 0
    ensures d * n >= n
  {
    assert d * n == (d - 1) * n + n;
    assert (d - 1) * n >= 0;
  }
}

/**
 * The halt-rule generation of the halting API, which the run-time shared
 * state, the runner builder and the configuration use: a rule pairs a
 * condition (a period, or an outcome) with the type of halt.
 */
module HaltRule {
  import opened Prim
  import opened Wrappers
  import ModelOutcome
  import RunObs
  import Halt

  /** `Condition`: every `n` iterations, or on seeing a state with the given outcome. */
  datatype Condition = EveryNIterations(n: NonZeroUsize) | OnOutcome(o: ModelOutcome.Outcome)

  /** `Rule`: a condition and the type of halt it causes. */
  datatype Rule = Rule(condition: Condition, ty: Halt.Type)

  /** `Condition::exit`. */
  function ExitRule(c: Condition): (r: Rule)
    ensures r.condition == c && r.ty == Halt.Exit
  {
    Rule(c, Halt.Exit)
  }

  /** `Condition::rotate`. */
  function RotateRule(c: Condition): (r: Rule)
    ensures r.condition == c && r.ty == Halt.Rotate
  {
    Rule(c, Halt.Rotate)
  }

  /**
   * Whether a condition holds for the latest summary: the iteration count is
   * a multiple of the period, or the observed state has the given outcome.
   */
  predicate Fires(c: Condition, s: RunObs.Summary) {
    match c
    case EveryNIterations(n) => s.iterations % n == 0
    case OnOutcome(o) => s.info.outcome == o
  }

  /** `Rule::exit_type`: the rule's type when its condition holds. */
  function RuleExitType(r: Rule, s: RunObs.Summary): (t: Option<Halt.Type>)
    ensures t.Some? <==> Fires(r.condition, s)
    ensures t.Some? ==> t.value == r.ty
  {
    Halt.ExitIf(Fires(r.condition, s), r.ty)
  }

  /** A periodic rule agrees with the periodic `Condition` of the halting module. */
  lemma RuleAgreesWithCondition(n: NonZeroUsize, ty: Halt.Type, s: RunObs.Summary)
    ensures RuleExitType(Rule(EveryNIterations(n), ty), s) == Halt.ConditionExitType(Halt.EveryNIterations(n, ty), s)
  {
  }
}
