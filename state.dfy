/** Observed states and their information (src/model/state.rs). */
module ModelState {
  import opened Prim
  import opened Wrappers
  import opened Text
  import opened ModelOutcome

  /** A value held in a variable; only 32-bit integers exist. */
  datatype Value = I32(v: i32)

  /** `Display for Value`: the bare integer, with no type tag. */
  function ValueToString(x: Value): (s: string)
    ensures 0 <= x.v ==> s == NatToDecimal(x.v as nat)
    ensures x.v < 0 ==> s == "-" + NatToDecimal(-(x.v as int) as nat)
  {
    IntToDecimal(x.v as int)
  }

  /** A non-negative value prints as digits that read back as the same number. */
  lemma ValueToStringReadsBack(x: Value)
    requires 0 <= x.v
    ensures ParseUsize(ValueToString(x)) == Ok(x.v as nat)
  {
    ParseUsizeDecimal(x.v as nat);
  }

  /** A negative value prints as '-' followed by the digits of its magnitude. */
  lemma NegativeValueToString(x: Value)
    requires x.v < 0
    ensures |ValueToString(x)| >= 2 && ValueToString(x)[0] == '-'
    ensures ParseUsize(ValueToString(x)[1..]) == Ok(-(x.v as int) as nat)
  {
    var s := ValueToString(x);
    assert s[1..] == NatToDecimal(-(x.v as int) as nat);
    ParseUsizeDecimal(-(x.v as int) as nat);
  }

  /** `State`: a `BTreeMap<String, Value>` from variable names to values. */
  type State = seq<(string, Value)>

  /** What is known about one observed state. */
  datatype Info = Info(iteration: usize, occurs: usize, outcome: Outcome)

  /** `Info::new`: seen once, at `iteration`, with `outcome`. */
  function NewInfo(outcome: Outcome, iteration: usize): (i: Info)
    ensures i.occurs == 1 && i.outcome == outcome && i.iteration == iteration
  {
    Info(iteration, 1, outcome)
  }

  /** `Info::inc`: one more occurrence, saturating at `usize::MAX`. */
  function Inc(i: Info): (r: Info)
    ensures i.occurs < USIZE_MAX ==> r.occurs == i.occurs + 1
    ensures i.occurs == USIZE_MAX ==> r.occurs == USIZE_MAX
    ensures r.outcome == i.outcome && r.iteration == i.iteration
  {
    i.(occurs := SaturatingInc(i.occurs))
  }

  /** `n` successive `inc`s. */
  function IncTimes(i: Info, n: nat): Info
  {
    if n == 0 then i else Inc(IncTimes(i, n - 1))
  }

  /** `n` increments add `n` occurrences, capped at `usize::MAX`, and keep the rest. */
  lemma {:induction false} IncTimesCount(i: Info, n: nat)
    ensures IncTimes(i, n).occurs == if i.occurs + n <= USIZE_MAX then i.occurs + n else USIZE_MAX
    ensures IncTimes(i, n).outcome == i.outcome && IncTimes(i, n).iteration == i.iteration
  {
    if n > 0 {
      IncTimesCount(i, n - 1);
    }
  }
}
