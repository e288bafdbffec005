/**
 * The earliest thread machinery (src/test.rs): a test body shared by all
 * threads, cloned per thread with its own thread id, and moved through the
 * ready, runnable, waiting and observable positions around a barrier.
 * The environment is a value of type `E`; the test's entry point is a
 * function from the thread id and the environment to the environment it
 * leaves behind.
 */
module LegacyTest {
  import opened Prim
  import opened Wrappers
  import Err

  /** The barrier every clone of a test shares (`Arc<Barrier>`), for `parties` threads. */
  class Barrier {
    const parties: nat

    constructor (parties: nat)
      ensures this.parties == parties
    {
      this.parties := parties;
    }
  }

  /** `Test`: the thread id, the environment, the entry point and the shared barrier. */
  datatype Test<!E> = Test(tid: nat, e: E, entry: (nat, E) -> E, b: Barrier)

  datatype ReadyTest<!E> = ReadyTest(test: Test<E>)
  datatype RunnableTest<!E> = RunnableTest(test: Test<E>)
  datatype WaitingTest<!E> = WaitingTest(test: Test<E>)
  datatype ObservableTest<!E> = ObservableTest(test: Test<E>)

  /** `RunOutcome`: wait until the next run, or observe the state first. */
  datatype RunOutcome<!E> = Wait(waiting: WaitingTest<E>) | Observe(observable: ObservableTest<E>)

  /** `ReadyTest::start`. */
  function Start<E>(r: ReadyTest<E>): (x: RunnableTest<E>)
    ensures x.test == r.test
  {
    RunnableTest(r.test)
  }

  /** `WaitingTest::wait`, once the barrier releases the thread. */
  function Resume<E>(w: WaitingTest<E>): (x: RunnableTest<E>)
    ensures x.test == w.test
  {
    RunnableTest(w.test)
  }

  /** `ObservableTest::relinquish`. */
  function Relinquish<E>(o: ObservableTest<E>): (x: WaitingTest<E>)
    ensures x.test == o.test
  {
    WaitingTest(o.test)
  }

  /** The test after its entry point has run once on its own environment. */
  function Ran<E>(t: Test<E>): Test<E> {
    t.(e := t.entry(t.tid, t.e))
  }

  /**
   * `RunnableTest::run`: the entry point runs on the thread's environment,
   * then the thread waits at the barrier; the one thread the barrier makes
   * its leader observes, every other one waits.
   */
  function Run<E>(r: RunnableTest<E>, isLeader: bool): (o: RunOutcome<E>)
    ensures o.Observe? <==> isLeader
    ensures (if o.Observe? then o.observable.test else o.waiting.test) == Ran(r.test)
  {
    var t := Ran(r.test);
    if isLeader then Observe(ObservableTest(t)) else Wait(WaitingTest(t))
  }

  /**
   * One round trip of a thread: whichever way the barrier goes, the thread
   * comes back runnable with the same id, entry point and barrier, and the
   * environment its entry point left.
   */
  lemma CycleKeepsTest<E>(r: ReadyTest<E>, isLeader: bool)
    ensures var o := Run(Start(r), isLeader);
            var back := if o.Observe? then Resume(Relinquish(o.observable)) else Resume(o.waiting);
            back.test.tid == r.test.tid && back.test.entry == r.test.entry && back.test.b == r.test.b
            && back.test.e == r.test.entry(r.test.tid, r.test.e)
  {
  }

  /** `TestBuilder`: the thread count and the sizes of the two integer arrays. */
  datatype TestBuilder = TestBuilder(numThreads: usize, numAtomicInts: usize, numInts: usize)

  /** The tests `build` hands out: one per thread, thread `i` at position `i`, all else shared. */
  ghost predicate Replicas<E>(v: seq<ReadyTest<E>>, n: nat, e: E, entry: (nat, E) -> E, b: Barrier) {
    |v| == n && forall i :: 0 <= i < n ==> v[i].test == Test(i, e, entry, b)
  }

  /**
   * `TestBuilder::build`: no threads is `NotEnoughThreads`; otherwise an
   * environment for the array sizes and the entry point are loaded (either
   * may fail, `env` and `entry` give what they came to) and one ready test
   * per thread is made, all sharing a new barrier for that many threads.
   */
  method Build<E>(tb: TestBuilder, env: Result<E, Err.Error>, entry: Result<(nat, E) -> E, Err.Error>)
    returns (r: Result<seq<ReadyTest<E>>, Err.Error>)
    ensures tb.numThreads == 0 ==> r == Err(Err.NotEnoughThreads)
    ensures tb.numThreads > 0 && env.Err? ==> r == Err(env.error)
    ensures tb.numThreads > 0 && env.Ok? && entry.Err? ==> r == Err(entry.error)
    ensures tb.numThreads > 0 && env.Ok? && entry.Ok? ==>
              r.Ok? && |r.value| == tb.numThreads
              && Replicas(r.value, tb.numThreads, env.value, entry.value, r.value[0].test.b)
              && fresh(r.value[0].test.b) && r.value[0].test.b.parties == tb.numThreads
  {
    if tb.numThreads == 0 {
      return Err(Err.NotEnoughThreads);
    }
    if env.Err? {
      return Err(env.error);
    }
    if entry.Err? {
      return Err(entry.error);
    }
    var b := new Barrier(tb.numThreads);
    var test := Test(tb.numThreads - 1, env.value, entry.value, b);
    var v: seq<ReadyTest<E>> := [];
    var tid := 0;
    while tid < tb.numThreads - 1
      invariant 0 <= tid <= tb.numThreads - 1
      invariant |v| == tid
      invariant forall i :: 0 <= i < tid ==> v[i].test == test.(tid := i)
    {
      var tc := test;
      tc := tc.(tid := tid);
      v := v + [ReadyTest(tc)];
      tid := tid + 1;
    }
    v := v + [ReadyTest(test)];
    r := Ok(v);
  }
}
