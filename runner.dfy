/**
 * The high-level test runner (src/run/runner.rs): a builder collecting halt
 * rules and factories, and a runner that runs rotations of one test
 * instance until one exits, then reports on its observer. What happens
 * inside a rotation (the threads running and observing) is summarised by a
 * `Rotation` value per rotation.
 */
module Runner {
  import opened Prim
  import opened Wrappers
  import opened AbsCheck
  import Err
  import OrdMap
  import Halt
  import HaltRule
  import RustEnv
  import Manifest
  import RunObs
  import ModelReport
  import ConfigSync
  import Shared
  import Cells
  import Instance

  /** A test entry point; making its manifest happens on the foreign side and may fail. */
  datatype Entry = Entry(manifest: Result<Manifest.Manifest, Err.Error>)

  /** `permute::Factory`: the permuter that leaves the order alone, or the random one. */
  datatype PermuterFactory = MakeNop | MakeRandom

  /** The choices a permuter makes: the identity for the no-op permuter, else the generator's. */
  function PermuterChoices(p: PermuterFactory, rng: nat -> nat): nat -> nat {
    if p == MakeNop then (i: nat) => i else rng
  }

  /**
   * What one rotation came to: whether a thread panicked, the random
   * choices for the permuter, what spawning and joining the threads gave,
   * and whether the tester state was left with a single owner.
   */
  datatype Rotation = Rotation(panicked: bool, rng: nat -> nat, joined: Result<Halt.Type, Err.Error>, soleOwner: bool)

  /** A rotation after which the runner goes round again. */
  predicate Continues(rot: Rotation) {
    !rot.panicked && rot.joined.Ok? && rot.joined.value == Halt.Rotate
  }

  /** A rotation after which the runner makes its report. */
  predicate Reports(rot: Rotation) {
    !rot.panicked && rot.joined.Ok? && rot.joined.value == Halt.Exit && rot.soleOwner
  }

  /** The first rotation that does not continue. */
  function FirstEnd(rots: seq<Rotation>): (k: nat)
    requires exists i :: 0 <= i < |rots| && !Continues(rots[i])
    ensures k < |rots| && !Continues(rots[k])
    ensures forall j :: 0 <= j < k ==> Continues(rots[j])
  {
    if !Continues(rots[0]) then 0
    else
      var i :| 0 <= i < |rots| && !Continues(rots[i]);
      assert rots[1..][i - 1] == rots[i];
      1 + FirstEnd(rots[1..])
  }

  /** `Builder`: the halt rules, the synchroniser factory, the entry, the checker factory and the permuter factory. */
  class Builder {
    const entry: Entry
    var haltRules: seq<HaltRule.Rule>
    var sync: ConfigSync.Factory
    var checker: Entry -> Checker<RustEnv.Contents>
    var permuter: PermuterFactory

    /** `Builder::new`: no halt rules, the spinner, a checker that always says `Unknown`, and no permuting. */
    constructor (entry: Entry)
      ensures this.entry == entry && haltRules == [] && sync == ConfigSync.MakeSpinner && permuter == MakeNop
      ensures forall e, env :: Check(checker(e), env) == ModelOutcome.Unknown
    {
      this.entry := entry;
      haltRules := [];
      sync := ConfigSync.MakeSpinner;
      checker := (e: Entry) => MakeUnknown<Entry, RustEnv.Contents>(e);
      permuter := MakeNop;
    }

    /** `Builder::add_halt_rules`: appends the rules, in order. */
    method AddHaltRules(rules: seq<HaltRule.Rule>)
      modifies this
      ensures haltRules == old(haltRules) + rules
      ensures sync == old(sync) && checker == old(checker) && permuter == old(permuter)
    {
      haltRules := haltRules + rules;
    }

    /** `Builder::with_checker`. */
    method WithChecker(checker: Entry -> Checker<RustEnv.Contents>)
      modifies this
      ensures this.checker == checker
      ensures haltRules == old(haltRules) && sync == old(sync) && permuter == old(permuter)
    {
      this.checker := checker;
    }

    /** `Builder::with_sync`. */
    method WithSync(sync: ConfigSync.Factory)
      modifies this
      ensures this.sync == sync
      ensures haltRules == old(haltRules) && checker == old(checker) && permuter == old(permuter)
    {
      this.sync := sync;
    }

    /** `Builder::with_permuter`. */
    method WithPermuter(permuter: PermuterFactory)
      modifies this
      ensures this.permuter == permuter
      ensures haltRules == old(haltRules) && checker == old(checker) && sync == old(sync)
    {
      this.permuter := permuter;
    }

    /**
     * `Builder::make_shared_state`: an environment for the manifest, reset to
     * the initial values; an empty observer; the entry's checker; and a copy
     * of the halt rules. `envErr` is what the environment type's
     * `of_reservations` reports: never anything for the native environment,
     * `EnvAllocFailed` for the C environment when `alloc_env` gives NULL; it
     * aborts before anything is built.
     */
    method MakeSharedState(m: Manifest.Manifest, envErr: Option<Err.Error>) returns (r: Result<Shared.State, Err.Error>)
      requires OrdMap.Sorted(m.i32s)
      ensures envErr.Some? ==> r == Err(envErr.value)
      ensures envErr.None? ==> r.Ok? && fresh(r.value) && fresh(r.value.observer) && fresh(r.value.env)
      ensures r.Ok? ==> r.value.Valid() && r.value.haltRules == haltRules && r.value.checker == checker(entry)
      ensures r.Ok? ==> r.value.observer.obs == map[] && r.value.observer.history == [] && r.value.env.manifest == m
      ensures r.Ok? ==> r.value.env.env.Snapshot() == RunObs.ResetAll(RustEnv.Contents(
                seq(Manifest.Reserve(m).i32s.atomic, _ => 0 as i32),
                seq(Manifest.Reserve(m).i32s.nonAtomic, _ => 0 as i32)), m.i32s)
    {
      if envErr.Some? {
        return Err(envErr.value);
      }
      var env := RunObs.Manifested.ForManifest(m);
      env.value.Reset();
      var observer := new RunObs.Observer();
      var state := new Shared.State(checker(entry), env.value, haltRules, observer);
      r := Ok(state);
    }

    /**
     * `Builder::build`: the entry's manifest, the shared state for it (whose
     * environment may fail to allocate), and an instance over that state
     * (whose synchroniser may fail); the first error aborts. The runner
     * starts with the instance and no report. The builder is left as it was.
     */
    method Build(envErr: Option<Err.Error>, syncErr: Option<Err.Error>) returns (r: Result<Runner, Err.Error>)
      requires entry.manifest.Ok? ==> OrdMap.Sorted(entry.manifest.value.i32s)
      ensures entry.manifest.Err? ==> r == Err(entry.manifest.error)
      ensures entry.manifest.Ok? && envErr.Some? ==> r == Err(envErr.value)
      ensures entry.manifest.Ok? && envErr.None? && syncErr.Some? ==> r == Err(syncErr.value)
      ensures entry.manifest.Ok? && envErr.None? && syncErr.None? ==> r.Ok? && fresh(r.value)
      ensures r.Ok? ==> r.value.Valid() && r.value.report.None? && r.value.instance.Some?
      ensures r.Ok? ==> r.value.permuter == permuter && |r.value.automata.vec| == entry.manifest.value.nThreads
      ensures r.Ok? ==> r.value.tester.observer.obs == map[] && r.value.tester.haltRules == haltRules
    {
      if entry.manifest.Err? {
        return Err(entry.manifest.error);
      }
      var shared := MakeSharedState(entry.manifest.value, envErr);
      if shared.Err? {
        return Err(shared.error);
      }
      var inst := Instance.New(syncErr, shared.value);
      if inst.Err? {
        return Err(inst.error);
      }
      var runner := new Runner(inst.value, permuter, shared.value);
      r := Ok(runner);
    }
  }

  /** `Runner`: the instance while it is still to run, the report once made, and the permuter. */
  class Runner {
    var instance: Option<Instance.Instance>
    var report: Option<ModelReport.Report>
    const permuter: PermuterFactory
    /** The one instance the runner holds throughout: rotating hands it back. */
    ghost const automata: Instance.Instance
    /** The tester state its automata share. */
    ghost const tester: Shared.State

    ghost predicate Valid()
      reads this, automata
      reads if |automata.vec| > 0 then {automata.vec[0].testerState} else {}
    {
      && (instance.Some? ==> instance.value == automata)
      && |automata.vec| > 0
      && automata.vec[0].testerState.contents == tester
    }

    constructor (instance: Instance.Instance, permuter: PermuterFactory, tester: Shared.State)
      requires |instance.vec| > 0 && instance.vec[0].testerState.contents == tester
      ensures Valid() && this.instance == Some(instance) && report.None? && this.permuter == permuter
      ensures automata == instance && this.tester == tester
    {
      this.instance := Some(instance);
      report := None;
      this.permuter := permuter;
      automata := instance;
      this.tester := tester;
    }

    /** One rotation, `run_rotation`: a thread panic becomes `ThreadPanic`. */
    method RunRotation(am: Instance.Instance, rot: Rotation) returns (r: Result<Instance.Outcome, Err.Error>)
      modifies if |am.vec| > 0 then {am.vec[0].haltState} else {}
      ensures rot.panicked ==> r == Err(Err.ThreadPanic)
      ensures !rot.panicked && rot.joined.Err? ==> r == Err(rot.joined.error)
      ensures !rot.panicked && rot.joined == Ok(Halt.Rotate) && |am.vec| > 0 ==> r == Ok(Instance.Rotate(am))
      ensures !rot.panicked && rot.joined == Ok(Halt.Exit) && |am.vec| > 0 ==>
                r == (if rot.soleOwner then Ok(Instance.Exit(am.vec[0].testerState.contents)) else Err(Err.LockReleaseFailed))
      ensures |am.vec| > 0 && r.Ok? && r.value.Rotate? ==> Continues(rot)
      ensures |am.vec| > 0 && Continues(rot) ==> r.Ok? && r.value.Rotate?
    {
      if rot.panicked {
        return Err(Err.ThreadPanic);
      }
      r := am.Run(PermuterChoices(permuter, rot.rng), rot.joined, rot.soleOwner);
      if |am.vec| > 0 && rot.joined == Ok(Halt.Exit) {
        assert r.Ok? ==> r.value.Exit?;
      }
      assert rot.joined.Ok? && rot.joined.value == Halt.Exit ==> rot.joined == Ok(Halt.Exit);
    }

    /**
     * `Runner::run`: rotations run until one does not ask to rotate again.
     * An error ends the run with that error; an exit turns the tester
     * state's observer into the report. Without an instance to run, the
     * report already made is returned, and without one `LockReleaseFailed`.
     */
    method Run(rotations: seq<Rotation>) returns (r: Result<ModelReport.Report, Err.Error>)
      requires Valid()
      requires exists i :: 0 <= i < |rotations| && !Continues(rotations[i])
      modifies this, automata.vec[0].haltState
      ensures old(instance).None? ==> r == (if old(report).Some? then Ok(old(report).value) else Err(Err.LockReleaseFailed))
      ensures old(instance).Some? ==>
        var end := rotations[FirstEnd(rotations)];
        && (end.panicked ==> r == Err(Err.ThreadPanic))
        && (!end.panicked && end.joined.Err? ==> r == Err(end.joined.error))
        && (!end.panicked && end.joined == Ok(Halt.Exit) && !end.soleOwner ==> r == Err(Err.LockReleaseFailed))
        && (!end.panicked && end.joined == Ok(Halt.Exit) && end.soleOwner ==>
              r.Ok? && fresh(r.value) && report == Some(r.value)
              && RunObs.ListsExactly(r.value.states, tester.observer.obs.Keys, tester.observer.obs))
    {
      if instance.None? {
        return if report.Some? then Ok(report.value) else Err(Err.LockReleaseFailed);
      }
      ghost var end := FirstEnd(rotations);
      var k := 0;
      while instance.Some?
        invariant k <= end
        invariant instance.Some? ==> instance.value == automata
        invariant Valid()
        invariant instance.None? ==> report.Some? && k == end
        invariant instance.None? ==> var e := rotations[end];
          && Reports(e) && fresh(report.value)
          && RunObs.ListsExactly(report.value.states, tester.observer.obs.Keys, tester.observer.obs)
        decreases (if instance.Some? then 1 else 0) + end - k
      {
        var am := instance.value;
        instance := None;
        var out := RunRotation(am, rotations[k]);
        if out.Err? {
          return Err(out.error);
        }
        match out.value
        case Rotate(next) =>
          assert next == automata;
          instance := Some(next);
          k := k + 1;
        case Exit(state) =>
          assert state == tester && k == end;
          var made := state.observer.IntoReport();
          report := Some(made);
      }
      r := Ok(report.value);
    }
  }
}
