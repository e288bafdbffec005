/**
 * The first generation of the per-thread test automaton (src/fsa.rs). Each
 * automaton is a handle on one test thread; the handles of a set share one
 * halt-state byte. Running the test body (a foreign entry point) and the
 * synchroniser's blocking are not modelled: the synchroniser is reduced to
 * its answer, whether this thread is the observer.
 */
module Fsa {
  import opened Prim
  import opened Wrappers
  import Err
  import Cells
  import Join

  /** `ExitType`: how the test finished; exiting is greater than rotating. */
  datatype ExitType = Rotate | Exit

  /** The derived order: `Rotate < Exit`. */
  predicate Le(a: ExitType, b: ExitType) {
    a == Rotate || b == Exit
  }

  /** The order is total and antisymmetric, and `Rotate` lies strictly below `Exit`. */
  lemma OrderFacts(a: ExitType, b: ExitType)
    ensures Le(Rotate, Exit) && !Le(Exit, Rotate)
    ensures Le(a, b) || Le(b, a)
    ensures Le(a, b) && Le(b, a) ==> a == b
  {
  }

  /** `ExitType::to_u8`: the state byte; never 0, which means no halt. */
  function ToU8(t: ExitType): (x: u8)
    ensures x == 1 || x == 2
  {
    match t
    case Rotate => 1
    case Exit => 2
  }

  /** `ExitType::from_u8`: every byte but 1 and 2 decodes to no exit type. */
  function FromU8(x: u8): (t: Option<ExitType>)
    ensures t.Some? <==> x == 1 || x == 2
  {
    match x
    case 1 => Some(Rotate)
    case 2 => Some(Exit)
    case _ => None
  }

  /** Decoding an encoded exit type gives it back, and encoding inverts decoding. */
  lemma U8RoundTrip(t: ExitType, x: u8)
    ensures FromU8(ToU8(t)) == Some(t)
    ensures FromU8(x).Some? ==> ToU8(FromU8(x).value) == x
  {
  }

  /** `Inner`: the thread id and the shared halt-state byte of one automaton. */
  datatype Inner = Inner(tid: nat, state: Cells.Flag)

  /** `Ready`: a handle not yet sent to its thread. */
  datatype Ready = Ready(inner: Inner)
  /** `Runnable`: a handle about to run the test body. */
  datatype Runnable = Runnable(inner: Inner)
  /** `Waiting`: a handle waiting for the other threads. */
  datatype Waiting = Waiting(inner: Inner)
  /** `Observable`: the one handle allowed to observe the environment. */
  datatype Observable = Observable(inner: Inner)
  /** `Done`: the end of a thread's test, with the exit type it saw. */
  datatype DoneState = DoneState(tid: nat, exitType: ExitType)

  /** `RunOutcome`. */
  datatype RunOutcome = Done(done: DoneState) | Wait(waiting: Waiting) | Observe(observable: Observable)

  /** `Ready::start`. */
  function Start(r: Ready): (x: Runnable)
    ensures x.inner == r.inner
  {
    Runnable(r.inner)
  }

  /** `Waiting::wait`, once the synchroniser lets the thread go. */
  function Resume(w: Waiting): (x: Runnable)
    ensures x.inner == w.inner
  {
    Runnable(w.inner)
  }

  /** `Observable::relinquish`. */
  function Relinquish(o: Observable): (x: Runnable)
    ensures x.inner == o.inner
  {
    Runnable(o.inner)
  }

  /**
   * `Runnable::run`: when the halt byte decodes to an exit type the thread is
   * done with that type and the body does not run; otherwise the body runs and
   * the thread observes exactly when the synchroniser makes it the observer.
   */
  function Run(r: Runnable, isObserver: bool): (o: RunOutcome)
    reads r.inner.state
    ensures o.Done? <==> FromU8(r.inner.state.state).Some?
    ensures o.Done? ==> o.done == DoneState(r.inner.tid, FromU8(r.inner.state.state).value)
    ensures o.Observe? <==> !o.Done? && isObserver
    ensures o.Observe? ==> o.observable.inner == r.inner
    ensures o.Wait? ==> o.waiting.inner == r.inner
  {
    match FromU8(r.inner.state.state)
    case Some(t) => Done(DoneState(r.inner.tid, t))
    case None => if isObserver then Observe(Observable(r.inner)) else Wait(Waiting(r.inner))
  }

  /** While no halt is requested, a thread cycles back to running as itself. */
  lemma CycleKeepsThread(r: Runnable, isObserver: bool)
    requires r.inner.state.state == 0
    ensures Run(r, isObserver).Observe? ==> Relinquish(Run(r, isObserver).observable) == r
    ensures Run(r, isObserver).Wait? ==> Resume(Run(r, isObserver).waiting) == r
    ensures !Run(r, isObserver).Done?
  {
  }

  /**
   * `Observable::kill`: stores the exit type's byte, then relinquishes; the
   * thread (and every thread sharing the byte) is then done with that type
   * the next time it runs.
   */
  method Kill(o: Observable, t: ExitType) returns (r: Runnable)
    modifies o.inner.state
    ensures o.inner.state.state == ToU8(t)
    ensures r == Relinquish(o)
    ensures forall b :: Run(r, b) == Done(DoneState(o.inner.tid, t))
  {
    o.inner.state.state := ToU8(t);
    r := Relinquish(o);
  }

  /** `Set`: the automata of one test, one per thread. */
  datatype Set = Set(vec: seq<Inner>)

  /**
   * The automata `Set::new` builds around its last automaton: one per thread
   * id from 0 to the last's, in order, differing from it only in the id.
   */
  predicate Replicates(vec: seq<Inner>, last: Inner) {
    && |vec| == last.tid + 1
    && forall i :: 0 <= i < |vec| ==> vec[i] == last.(tid := i)
  }

  /**
   * `Set::new`: an environment error, then a synchroniser error, aborts;
   * otherwise one automaton per thread, thread `i` at position `i`, all
   * sharing one halt byte that starts at 0. A zero thread count would
   * underflow `n_threads - 1`.
   */
  method NewSet(nThreads: usize, envErr: Option<Err.Error>, syncErr: Option<Err.Error>) returns (r: Result<Set, Err.Error>)
    requires envErr.None? && syncErr.None? ==> nThreads > 0
    ensures envErr.Some? ==> r == Err(envErr.value)
    ensures envErr.None? && syncErr.Some? ==> r == Err(syncErr.value)
    ensures envErr.None? && syncErr.None? ==> r.Ok? && |r.value.vec| == nThreads
    ensures r.Ok? ==> Replicates(r.value.vec, r.value.vec[nThreads - 1]) && r.value.vec[0].state.state == 0
  {
    if envErr.Some? {
      return Err(envErr.value);
    }
    if syncErr.Some? {
      return Err(syncErr.value);
    }
    var flag := new Cells.Flag();
    var inner := Inner(nThreads - 1, flag);
    var vec: seq<Inner> := [];
    var tid := 0;
    while tid < nThreads - 1
      invariant tid <= nThreads - 1
      invariant |vec| == tid
      invariant forall i :: 0 <= i < tid ==> vec[i] == inner.(tid := i)
    {
      vec := vec + [inner.(tid := tid)];
      tid := tid + 1;
    }
    vec := vec + [inner];
    r := Ok(Set(vec));
  }

  /** The exit type a set's run reports: `Exit` when no thread was joined, else the last thread's. */
  function ExitTypeOf(joined: Option<DoneState>): ExitType {
    match joined
    case None => Exit
    case Some(d) => d.exitType
  }

  /** The handles spawned from a set, one per automaton, in order; spawning cannot fail here. */
  function Spawned<H>(s: Set, spawn: Ready -> H): (hs: seq<Result<H, Err.Error>>)
    ensures |hs| == |s.vec|
    ensures forall i :: 0 <= i < |hs| ==> hs[i] == Ok(spawn(Ready(s.vec[i])))
  {
    seq(|s.vec|, i requires 0 <= i < |s.vec| => Ok(spawn(Ready(s.vec[i]))))
  }

  /**
   * `Set::run`: spawns one thread per automaton, joins them in order (the
   * first join error aborts) and returns the last joined exit type, or `Exit`
   * for an empty set, with the same set of automata.
   */
  method RunSet<H>(s: Set, spawn: Ready -> H, join: H -> Result<DoneState, Err.Error>) returns (r: Result<(ExitType, Set), Err.Error>)
    ensures r.Ok? <==> Join.LastJoined(Spawned(s, spawn), join).Ok?
    ensures r.Ok? ==> r.value == (ExitTypeOf(Join.LastJoined(Spawned(s, spawn), join).value), s)
    ensures r.Err? ==> r.error == Join.LastJoined(Spawned(s, spawn), join).error
  {
    var handles := Spawned(s, spawn);
    var et := Exit;
    var k := 0;
    while k < |handles|
      invariant k <= |handles|
      invariant Join.LastJoined(handles[..k], join).Ok?
      invariant et == ExitTypeOf(Join.LastJoined(handles[..k], join).value)
    {
      Join.LastJoinedSnoc(handles[..k], handles[k], join);
      assert handles[..k + 1] == handles[..k] + [handles[k]];
      var done := join(handles[k].value);
      if done.Err? {
        LastJoinedErrSticks(handles, k + 1, join);
        return Err(done.error);
      }
      et := done.value.exitType;
      k := k + 1;
    }
    assert handles[..k] == handles;
    r := Ok((et, s));
  }

  /** Once joining a prefix fails, joining the whole fails with the same error. */
  lemma {:induction false} LastJoinedErrSticks<H>(hs: seq<Result<H, Err.Error>>, k: nat, join: H -> Result<DoneState, Err.Error>)
    requires k <= |hs|
    requires Join.LastJoined(hs[..k], join).Err?
    ensures Join.LastJoined(hs, join) == Join.LastJoined(hs[..k], join)
  {
    if k < |hs| {
      var init := hs[..|hs| - 1];
      assert init[..k] == hs[..k];
      LastJoinedErrSticks(init, k, join);
    } else {
      assert hs[..k] == hs;
    }
  }

  /** With every thread joined, a set reports the last thread's exit type. */
  lemma RunSetAllJoined<H>(s: Set, spawn: Ready -> H, join: H -> Result<DoneState, Err.Error>)
    requires |s.vec| > 0
    requires forall i :: 0 <= i < |s.vec| ==> join(spawn(Ready(s.vec[i]))).Ok?
    ensures Join.LastJoined(Spawned(s, spawn), join).Ok?
    ensures ExitTypeOf(Join.LastJoined(Spawned(s, spawn), join).value) ==
            join(spawn(Ready(s.vec[|s.vec| - 1]))).value.exitType
  {
    var hs := Spawned(s, spawn);
    Join.LastJoinedMeaning(hs, join);
    forall i | 0 <= i < |hs| ensures Join.JoinOne(hs[i], join).Ok? {
      assert hs[i] == Ok(spawn(Ready(s.vec[i])));
    }
  }
}
