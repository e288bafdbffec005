/** The checker API (src/api/abs/check.rs). */
module AbsCheck {
  import opened Wrappers
  import opened ModelOutcome

  /**
   * A checker of environments of type `E`: a function (the `fn(&E) -> Outcome`
   * instance) or an `Outcome` used as a constant checker.
   */
  datatype Checker<!E> = FnChecker(f: E -> Outcome) | OutcomeChecker(o: Outcome)

  /** `Checker::check`. */
  function Check<E>(c: Checker<E>, env: E): (o: Outcome)
    ensures c.FnChecker? ==> o == c.f(env)
    ensures c.OutcomeChecker? ==> o == c.o
  {
    match c
    case FnChecker(f) => f(env)
    case OutcomeChecker(x) => x
  }

  /** An outcome used as a checker returns itself, whatever the environment. */
  lemma OutcomeChecksItself<E>(o: Outcome, env1: E, env2: E)
    ensures Check(OutcomeChecker(o), env1) == o == Check(OutcomeChecker(o), env2)
  {
  }

  /** `make_unknown`: a factory whose checkers always say `Unknown`. */
  function MakeUnknown<T, E(!new)>(t: T): (c: Checker<E>)
    ensures forall env: E :: Check(c, env) == Unknown
  {
    OutcomeChecker(Unknown)
  }

  /** `make_optional`: `maker` applied to the item, or a constant `Unknown` checker. */
  function MakeOptional<T, E(!new)>(maker: T -> Checker<E>, opt: Option<T>): (c: Checker<E>)
    ensures opt.Some? ==> c == maker(opt.value)
    ensures opt.None? ==> forall env: E :: Check(c, env) == Unknown
  {
    match opt
    case Some(p) => maker(p)
    case None => OutcomeChecker(Unknown)
  }
}

/** `option_checker` and the environment round-trip test helper (src/api/abs.rs). */
module Abs {
  import opened Wrappers
  import opened ModelOutcome
  import opened AbsCheck
  import opened Slot
  import RustEnv
  import Err

  /** `option_checker`: `maker` applied to the item, or a checker that always says `Unknown`. */
  function OptionChecker<T, E(!new)>(maker: T -> Checker<E>, opt: Option<T>): (c: Checker<E>)
    ensures opt.Some? ==> c == maker(opt.value)
    ensures opt.None? ==> forall env: E :: Check(c, env) == Unknown
  {
    if opt.Some? then maker(opt.value) else OutcomeChecker(Unknown)
  }

  /** `option_checker` and `make_optional` build the same checker. */
  lemma OptionCheckerIsMakeOptional<T, E(!new)>(maker: T -> Checker<E>, opt: Option<T>)
    ensures OptionChecker(maker, opt) == MakeOptional(maker, opt)
  {
  }

  /**
   * `test_i32_get_set` against the native-Rust environment: reserve one slot
   * at index 0, read 0 from it, write 42, read 42 back. Both reads match,
   * so the test always succeeds.
   */
  method TestI32GetSet(isAtomic: bool) returns (r: Result<(), Err.Error>, before: int, after: int)
    ensures r == Ok(())
    ensures before == 0 && after == 42
  {
    var slot := Slot(isAtomic, 0);
    var reservation := ReservationSet(OfSlots([slot]));
    assert [slot][..0] == [];
    assert OfSlots([slot]) == AddSlot(OfSlots([]), slot);
    assert CountFor(reservation.i32s, isAtomic) == 1;
    var made := RustEnv.Env.OfReservations(reservation);
    // The native environment's `of_reservations` never fails, so `?` never returns here.
    var env := made.value;
    before := env.GetI32(slot) as int;
    env.SetI32(slot, 42);
    after := env.GetI32(slot) as int;
    r := Ok(());
  }
}
