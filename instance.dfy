/**
 * Test instances (src/run/instance.rs): the automata of one test, run one
 * rotation at a time. The automata carry the shared tester state of the
 * run-time shared module. Spawning and joining the threads is the
 * threader's business; its combined result is a parameter.
 */
module Instance {
  import opened Prim
  import opened Wrappers
  import Err
  import Halt
  import Shared
  import RunFsa
  import Shuffle

  /** `Outcome`: run again with the same instance, or the tester state after exiting. */
  datatype Outcome = Rotate(instance: Instance) | Exit(state: Shared.State)

  /** `Instance`: one automaton per thread. */
  class Instance {
    var vec: seq<RunFsa.Inner<Shared.State>>

    constructor (vec: seq<RunFsa.Inner<Shared.State>>)
      ensures this.vec == vec
    {
      this.vec := vec;
    }

    /** `Instance::inner`: the first automaton, or `NotEnoughThreads` for an empty instance. */
    function First(): (r: Result<RunFsa.Inner<Shared.State>, Err.Error>)
      reads this
      ensures r.Ok? <==> |vec| > 0
      ensures r.Ok? ==> r.value == vec[0]
      ensures r.Err? ==> r.error == Err.NotEnoughThreads
    {
      if |vec| > 0 then Ok(vec[0]) else Err(Err.NotEnoughThreads)
    }

    /** One ready handle per automaton, in order. */
    function ReadyAll(): (ready: seq<RunFsa.Ready<Shared.State>>)
      reads this
      ensures |ready| == |vec|
      ensures forall i :: 0 <= i < |vec| ==> ready[i] == RunFsa.Ready(vec[i])
    {
      seq(|vec|, i requires 0 <= i < |vec| reads this => RunFsa.Ready(vec[i]))
    }

    /**
     * `Instance::spawn_all`, up to the threader: exactly one ready handle per
     * automaton, passed through the permuter; the permuter reorders them
     * without losing or duplicating any.
     */
    method SpawnAll(rng: nat -> nat) returns (ready: seq<RunFsa.Ready<Shared.State>>)
      ensures ready == Shuffle.Shuffled(ReadyAll(), rng, |vec|)
      ensures |ready| == |vec| && multiset(ready) == multiset(ReadyAll())
    {
      var unpermuted := ReadyAll();
      Shuffle.ShuffledPermutes(unpermuted, rng, |unpermuted|);
      ready := Shuffle.Shuffled(unpermuted, rng, |unpermuted|);
    }

    /**
     * `Instance::into_outcome`: an empty instance has no automaton to act
     * through; rotating erases the halt byte so that the respawned threads
     * run, and exiting takes the tester state out of its cell.
     */
    method IntoOutcome(haltType: Halt.Type, soleOwner: bool) returns (r: Result<Outcome, Err.Error>)
      modifies if |vec| > 0 then {vec[0].haltState} else {}
      ensures |vec| == 0 ==> r == Err(Err.NotEnoughThreads)
      ensures |vec| > 0 && haltType == Halt.Rotate ==> r == Ok(Rotate(this)) && vec[0].haltState.state == 0
      ensures |vec| > 0 && haltType == Halt.Exit ==> r == RunFsa.GetState(vec[0], soleOwner).Map(s => Exit(s))
      ensures |vec| > 0 && haltType == Halt.Exit ==> unchanged(vec[0].haltState)
    {
      var inner := First();
      if inner.Err? {
        return Err(inner.error);
      }
      match haltType
      case Rotate =>
        RunFsa.SetHaltState(inner.value, None);
        r := Ok(Rotate(this));
      case Exit =>
        var state := RunFsa.GetState(inner.value, soleOwner);
        r := state.Map(s => Exit(s));
    }

    /**
     * `Instance::run`: permute and spawn the handles, join them, and turn the
     * resulting halt type into an outcome; `joined` is what the threader's
     * spawning and joining gave.
     */
    method Run(rng: nat -> nat, joined: Result<Halt.Type, Err.Error>, soleOwner: bool) returns (r: Result<Outcome, Err.Error>)
      modifies if |vec| > 0 then {vec[0].haltState} else {}
      ensures joined.Err? ==> r == Err(joined.error)
      ensures joined.Ok? && |vec| == 0 ==> r == Err(Err.NotEnoughThreads)
      ensures joined == Ok(Halt.Rotate) && |vec| > 0 ==> r == Ok(Rotate(this)) && vec[0].haltState.state == 0
      ensures joined == Ok(Halt.Exit) && |vec| > 0 ==> r == RunFsa.GetState(vec[0], soleOwner).Map(s => Exit(s))
    {
      var ready := SpawnAll(rng);
      if joined.Err? {
        return Err(joined.error);
      }
      r := IntoOutcome(joined.value, soleOwner);
    }
  }

  /**
   * `Instance::new`: the synchroniser for the manifest's thread count (its
   * error aborts), then one automaton per thread around the last, all
   * sharing the tester state and a halt byte at 0.
   */
  method New(syncErr: Option<Err.Error>, testerState: Shared.State) returns (r: Result<Instance, Err.Error>)
    ensures syncErr.Some? ==> r == Err(syncErr.value)
    ensures syncErr.None? ==> r.Ok? && fresh(r.value)
    ensures r.Ok? ==> |r.value.vec| == testerState.env.manifest.nThreads
    ensures r.Ok? ==> RunFsa.Replicates(r.value.vec, r.value.vec[|r.value.vec| - 1])
    ensures r.Ok? ==> r.value.vec[|r.value.vec| - 1].tid == testerState.env.manifest.nThreads - 1
    ensures r.Ok? ==> r.value.vec[0].haltState.state == 0 && r.value.vec[0].testerState.contents == testerState
  {
    if syncErr.Some? {
      return Err(syncErr.value);
    }
    var n := testerState.env.manifest.nThreads;
    var s := RunFsa.NewWithEnvAndSync(n, testerState);
    var inst := new Instance(s.vec);
    r := Ok(inst);
  }
}
