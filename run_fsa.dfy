/**
 * The run-time generation of the per-thread test automaton
 * (src/run/fsa.rs). The automata of a set share the halt-state byte and the
 * tester state; the foreign test body and the synchroniser's blocking are
 * not modelled, the synchroniser being reduced to whether this thread is the
 * observer.
 */
module RunFsa {
  import opened Prim
  import opened Wrappers
  import Err
  import Cells
  import Join
  import Halt
  import Shuffle

  /** `Inner`: the thread id, the shared tester state and the shared halt-state byte. */
  datatype Inner<S> = Inner(tid: nat, testerState: Cells.Cell<S>, haltState: Cells.Flag)

  /** `Ready`: a handle not yet sent to its thread. */
  datatype Ready<S> = Ready(inner: Inner<S>)
  /** `Runnable`: a handle about to run the test body. */
  datatype Runnable<S> = Runnable(inner: Inner<S>)
  /** `Waiting`: a handle waiting for the other threads. */
  datatype Waiting<S> = Waiting(inner: Inner<S>)
  /** `Observable`: the one handle allowed to touch the shared state. */
  datatype Observable<S> = Observable(inner: Inner<S>)
  /** `Done`: the end of a thread's test, with the halt type it saw. */
  datatype DoneState = DoneState(tid: nat, haltType: Halt.Type)

  /** `RunOutcome`. */
  datatype RunOutcome<S> = Done(done: DoneState) | Wait(waiting: Waiting<S>) | Observe(observable: Observable<S>)

  /** `Ready::start`. */
  function Start<S>(r: Ready<S>): (x: Runnable<S>)
    ensures x.inner == r.inner
  {
    Runnable(r.inner)
  }

  /** `Waiting::wait`, once the synchroniser lets the thread go. */
  function Resume<S>(w: Waiting<S>): (x: Runnable<S>)
    ensures x.inner == w.inner
  {
    Runnable(w.inner)
  }

  /** `Observable::relinquish`. */
  function Relinquish<S>(o: Observable<S>): (x: Runnable<S>)
    ensures x.inner == o.inner
  {
    Runnable(o.inner)
  }

  /**
   * `Runnable::run`: when the halt byte decodes to a halt type the thread is
   * done with it and the body does not run; otherwise the body runs and the
   * thread observes exactly when the synchroniser makes it the observer.
   */
  function Run<S>(r: Runnable<S>, isObserver: bool): (o: RunOutcome<S>)
    reads r.inner.haltState
    ensures o.Done? <==> Halt.FromU8(r.inner.haltState.state).Some?
    ensures o.Done? ==> o.done == DoneState(r.inner.tid, Halt.FromU8(r.inner.haltState.state).value)
    ensures o.Observe? <==> !o.Done? && isObserver
    ensures o.Observe? ==> o.observable.inner == r.inner
    ensures o.Wait? ==> o.waiting.inner == r.inner
  {
    match Halt.FromU8(r.inner.haltState.state)
    case Some(t) => Done(DoneState(r.inner.tid, t))
    case None => if isObserver then Observe(Observable(r.inner)) else Wait(Waiting(r.inner))
  }

  /** While no halt is requested, a thread cycles back to running as itself. */
  lemma CycleKeepsThread<S>(r: Runnable<S>, isObserver: bool)
    requires r.inner.haltState.state == 0
    ensures Run(r, isObserver).Observe? ==> Relinquish(Run(r, isObserver).observable) == r
    ensures Run(r, isObserver).Wait? ==> Resume(Run(r, isObserver).waiting) == r
    ensures !Run(r, isObserver).Done?
  {
  }

  /** `Inner::set_halt_state`: the byte of the halt type, or 0 to erase it; it decodes back to `state`. */
  method SetHaltState<S>(inner: Inner<S>, state: Option<Halt.Type>)
    modifies inner.haltState
    ensures inner.haltState.state == if state.Some? then Halt.ToU8(state.value) else 0
    ensures Halt.FromU8(inner.haltState.state) == state
  {
    inner.haltState.state := if state.Some? then Halt.ToU8(state.value) else 0;
    if state.Some? {
      Halt.FromU8ToU8(state.value);
    }
  }

  /**
   * `Observable::kill`: sets the halt byte to the type, then relinquishes; the
   * thread (and every thread sharing the byte) is then done with that type
   * the next time it runs.
   */
  method Kill<S>(o: Observable<S>, t: Halt.Type) returns (r: Runnable<S>)
    modifies o.inner.haltState
    ensures o.inner.haltState.state == Halt.ToU8(t)
    ensures r == Relinquish(o)
    ensures forall b :: Run(r, b) == Done(DoneState(o.inner.tid, t))
  {
    SetHaltState(o.inner, Some(t));
    r := Relinquish(o);
  }

  /**
   * `Inner::get_state`: takes the tester state out of its cell, which fails
   * unless this handle holds the only reference to it.
   */
  function GetState<S>(inner: Inner<S>, soleOwner: bool): (r: Result<S, Err.Error>)
    reads inner.testerState
    ensures r.Ok? <==> soleOwner
    ensures r.Ok? ==> r.value == inner.testerState.contents
    ensures r.Err? ==> r.error == Err.LockReleaseFailed
  {
    if soleOwner then Ok(inner.testerState.contents) else Err(Err.LockReleaseFailed)
  }

  /**
   * The automata built around a last automaton: one per thread id from 0 to
   * the last's, in order, differing from it only in the id.
   */
  predicate Replicates<S>(vec: seq<Inner<S>>, last: Inner<S>) {
    && |vec| == last.tid + 1
    && forall i :: 0 <= i < |vec| ==> vec[i] == last.(tid := i)
  }

  /** The result of joining: `Exit` when no thread was joined, else the last thread's halt type. */
  function HaltTypeOf(joined: Option<DoneState>): Halt.Type {
    match joined
    case None => Halt.Exit
    case Some(d) => d.haltType
  }

  /**
   * `join_all`: joins each handle in order, the first spawn or join error
   * aborting; the halt type is that of the last thread, or `Exit` when there
   * are no handles.
   */
  method JoinAll<H>(handles: seq<Result<H, Err.Error>>, join: H -> Result<DoneState, Err.Error>) returns (r: Result<Halt.Type, Err.Error>)
    ensures r.Ok? <==> Join.LastJoined(handles, join).Ok?
    ensures r.Ok? ==> r.value == HaltTypeOf(Join.LastJoined(handles, join).value)
    ensures r.Err? ==> r.error == Join.LastJoined(handles, join).error
  {
    var haltType := Halt.Exit;
    var k := 0;
    while k < |handles|
      invariant k <= |handles|
      invariant Join.LastJoined(handles[..k], join).Ok?
      invariant haltType == HaltTypeOf(Join.LastJoined(handles[..k], join).value)
    {
      Join.LastJoinedSnoc(handles[..k], handles[k], join);
      assert handles[..k + 1] == handles[..k] + [handles[k]];
      if handles[k].Err? {
        LastJoinedErrSticks(handles, k + 1, join);
        return Err(handles[k].error);
      }
      var done := join(handles[k].value);
      if done.Err? {
        LastJoinedErrSticks(handles, k + 1, join);
        return Err(done.error);
      }
      haltType := done.value.haltType;
      k := k + 1;
    }
    assert handles[..k] == handles;
    r := Ok(haltType);
  }

  /** Once joining a prefix fails, joining the whole fails with the same error. */
  lemma {:induction false} LastJoinedErrSticks<H>(hs: seq<Result<H, Err.Error>>, k: nat, join: H -> Result<DoneState, Err.Error>)
    requires k <= |hs|
    requires Join.LastJoined(hs[..k], join).Err?
    ensures Join.LastJoined(hs, join) == Join.LastJoined(hs[..k], join)
    decreases |hs|
  {
    if k < |hs| {
      var init := hs[..|hs| - 1];
      assert init[..k] == hs[..k];
      LastJoinedErrSticks(init, k, join);
    } else {
      assert hs[..k] == hs;
    }
  }

  /** `Outcome`: run again with the same set, or the tester state after exiting. */
  datatype Outcome<S> = Rotate(automata: Set<S>) | Exit(state: S)

  /** `Set`: the automata of one test, one per thread. */
  class Set<S> {
    var vec: seq<Inner<S>>

    constructor (vec: seq<Inner<S>>)
      ensures this.vec == vec
    {
      this.vec := vec;
    }

    /** `Set::inner`: the first automaton, or `NotEnoughThreads` for an empty set. */
    function First(): (r: Result<Inner<S>, Err.Error>)
      reads this
      ensures r.Ok? <==> |vec| > 0
      ensures r.Ok? ==> r.value == vec[0]
      ensures r.Err? ==> r.error == Err.NotEnoughThreads
    {
      if |vec| > 0 then Ok(vec[0]) else Err(Err.NotEnoughThreads)
    }

    /**
     * `Set::permute`: shuffles the automata in place; they stay the same
     * automata (see `Shuffle.ShuffledPermutes`).
     */
    method Permute(rng: nat -> nat)
      modifies this
      ensures vec == Shuffle.Shuffled(old(vec), rng, |old(vec)|)
    {
      var n: nat := |vec|;
      while n > 1
        invariant n <= |vec| == |old(vec)|
        invariant Shuffle.Shuffled(vec, rng, n) == Shuffle.Shuffled(old(vec), rng, |old(vec)|)
      {
        vec := Shuffle.Swap(vec, n - 1, Shuffle.Pick(rng, n - 1));
        n := n - 1;
      }
    }

    /** `Set::spawn_all`: one spawn per automaton, in order. */
    function SpawnAll<H>(spawn: Ready<S> -> Result<H, Err.Error>): (hs: seq<Result<H, Err.Error>>)
      reads this
      ensures |hs| == |vec|
      ensures forall i :: 0 <= i < |hs| ==> hs[i] == spawn(Ready(vec[i]))
    {
      seq(|vec|, i requires 0 <= i < |vec| reads this => spawn(Ready(vec[i])))
    }

    /**
     * `Set::into_outcome`: an empty set has no automaton to act through;
     * rotating erases the halt byte so that the respawned threads run, and
     * exiting takes the tester state out of its cell.
     */
    method IntoOutcome(haltType: Halt.Type, soleOwner: bool) returns (r: Result<Outcome<S>, Err.Error>)
      modifies if |vec| > 0 then {vec[0].haltState} else {}
      ensures |vec| == 0 ==> r == Err(Err.NotEnoughThreads)
      ensures |vec| > 0 && haltType == Halt.Rotate ==> r == Ok(Rotate(this)) && vec[0].haltState.state == 0
      ensures |vec| > 0 && haltType == Halt.Exit ==> r == GetState(vec[0], soleOwner).Map(s => Exit(s))
      ensures |vec| > 0 && haltType == Halt.Exit ==> unchanged(vec[0].haltState)
    {
      var inner := First();
      if inner.Err? {
        return Err(inner.error);
      }
      match haltType
      case Rotate =>
        SetHaltState(inner.value, None);
        r := Ok(Rotate(this));
      case Exit =>
        var state := GetState(inner.value, soleOwner);
        r := state.Map(s => Exit(s));
    }

    /** `Set::run`: spawn every automaton, join them all, and turn the halt type into an outcome. */
    method RunSet<H>(spawn: Ready<S> -> Result<H, Err.Error>, join: H -> Result<DoneState, Err.Error>, soleOwner: bool)
      returns (r: Result<Outcome<S>, Err.Error>)
      modifies if |vec| > 0 then {vec[0].haltState} else {}
      ensures Join.LastJoined(old(SpawnAll(spawn)), join).Err? ==> r == Err(Join.LastJoined(old(SpawnAll(spawn)), join).error)
      ensures |vec| == 0 ==> r.Err?
      ensures |vec| == 0 && Join.LastJoined(old(SpawnAll(spawn)), join).Ok? ==> r == Err(Err.NotEnoughThreads)
      ensures |vec| > 0 && Join.LastJoined(old(SpawnAll(spawn)), join).Ok?
              && HaltTypeOf(Join.LastJoined(old(SpawnAll(spawn)), join).value) == Halt.Rotate ==>
        r == Ok(Rotate(this)) && vec[0].haltState.state == 0
      ensures |vec| > 0 && Join.LastJoined(old(SpawnAll(spawn)), join).Ok?
              && HaltTypeOf(Join.LastJoined(old(SpawnAll(spawn)), join).value) == Halt.Exit ==>
        r == GetState(vec[0], soleOwner).Map(s => Exit(s))
      ensures r.Ok? && r.value.Rotate? ==> r.value.automata == this && vec[0].haltState.state == 0
      ensures r.Ok? && r.value.Exit? ==> soleOwner && r.value.state == old(vec[0].testerState.contents)
    {
      var handles := SpawnAll(spawn);
      var haltType := JoinAll(handles, join);
      if haltType.Err? {
        return Err(haltType.error);
      }
      r := IntoOutcome(haltType.value, soleOwner);
    }
  }

  /**
   * `Set::new_with_env_and_sync`: one automaton per thread, thread `i` at
   * position `i`, the last being the original, all sharing a fresh halt byte
   * at 0 and one tester-state cell. A zero thread count would underflow
   * `nthreads - 1`.
   */
  method NewWithEnvAndSync<S>(nthreads: usize, testerState: S) returns (s: Set<S>)
    requires nthreads > 0
    ensures |s.vec| == nthreads && Replicates(s.vec, s.vec[nthreads - 1])
    ensures fresh(s) && fresh(s.vec[0].haltState) && fresh(s.vec[0].testerState)
    ensures s.vec[0].haltState.state == 0 && s.vec[0].testerState.contents == testerState
  {
    var flag := new Cells.Flag();
    var cell := new Cells.Cell(testerState);
    var inner := Inner(nthreads - 1, cell, flag);
    var vec: seq<Inner<S>> := [];
    var tid := 0;
    while tid < nthreads - 1
      invariant tid <= nthreads - 1
      invariant |vec| == tid
      invariant forall i :: 0 <= i < tid ==> vec[i] == inner.(tid := i)
    {
      vec := vec + [inner.(tid := tid)];
      tid := tid + 1;
    }
    vec := vec + [inner];
    s := new Set(vec);
  }

  /**
   * `Set::new`: the environment for the manifest, then the synchroniser for
   * its thread count; either error aborts. Resetting the environment to the
   * manifest's initial values is the run-time observer's `reset`.
   */
  method New<S>(nThreads: usize, envErr: Option<Err.Error>, syncErr: Option<Err.Error>, testerState: S) returns (r: Result<Set<S>, Err.Error>)
    requires envErr.None? && syncErr.None? ==> nThreads > 0
    ensures envErr.Some? ==> r == Err(envErr.value)
    ensures envErr.None? && syncErr.Some? ==> r == Err(syncErr.value)
    ensures envErr.None? && syncErr.None? ==> r.Ok? && fresh(r.value) && |r.value.vec| == nThreads
    ensures r.Ok? ==> Replicates(r.value.vec, r.value.vec[nThreads - 1]) && r.value.vec[0].haltState.state == 0
  {
    if envErr.Some? {
      return Err(envErr.value);
    }
    if syncErr.Some? {
      return Err(syncErr.value);
    }
    var s := NewWithEnvAndSync(nThreads, testerState);
    r := Ok(s);
  }
}
