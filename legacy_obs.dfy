/**
 * The first observer generation (src/obs.rs): states are maps from names to
 * 32-bit values built from the atomic and the plain variables of a legacy
 * manifest; the observer deduplicates them and counts iterations without
 * saturation.
 */
module LegacyObs {
  import opened Prim
  import opened Wrappers
  import opened History
  import OrdMap
  import Text
  import RustEnv
  import LegacyManifest

  /** `Obs`: an observed state, a `BTreeMap<String, i32>`. */
  type Obs = seq<(string, i32)>

  /** `CheckResult`. */
  datatype CheckResult = Passed | Failed

  /** What a legacy environment holds: the atomic integers and the plain integers, by slot. */
  datatype EnvValues = EnvValues(atomicInts: seq<i32>, ints: seq<i32>)

  /** A checker of legacy environments. */
  type Checker = EnvValues -> CheckResult

  /**
   * `env::Manifested`: an environment with its manifest. The `i`-th
   * variable of each map (in key order) lives in slot `i` of its kind.
   */
  datatype Manifested = Manifested(manifest: LegacyManifest.Manifest, env: EnvValues)

  /** `Info`: how often a state occurred and what the checker said about it. */
  datatype Info = Info(occurs: nat, checkResult: CheckResult)

  /** `Info::inc`: one more occurrence (the count does not saturate here). */
  function Inc(i: Info): (r: Info)
    ensures r.occurs == i.occurs + 1 && r.checkResult == i.checkResult
  {
    i.(occurs := i.occurs + 1)
  }

  /** A summary: the iteration count including this one, and this state's information. */
  datatype Summary = Summary(iterations: nat, info: Info)

  /** The (name, value) pairs of one variable map, the `i`-th read from slot `i`. */
  function SlotValues(vars: seq<(string, LegacyManifest.VarRecord)>, vals: seq<i32>): (vs: Obs)
    ensures |vs| == |vars|
    ensures forall i :: 0 <= i < |vars| ==> vs[i] == (vars[i].0, RustEnv.Read(vals, i))
  {
    seq(|vars|, i requires 0 <= i < |vars| => (vars[i].0, RustEnv.Read(vals, i)))
  }

  /** `atomic_int_values`. */
  function AtomicIntValues(m: Manifested): (vs: Obs)
    ensures |vs| == |m.manifest.atomicInts|
    ensures forall i :: 0 <= i < |vs| ==> vs[i] == (m.manifest.atomicInts[i].0, RustEnv.Read(m.env.atomicInts, i))
  {
    SlotValues(m.manifest.atomicInts, m.env.atomicInts)
  }

  /** `int_values`. */
  function IntValues(m: Manifested): (vs: Obs)
    ensures |vs| == |m.manifest.ints|
    ensures forall i :: 0 <= i < |vs| ==> vs[i] == (m.manifest.ints[i].0, RustEnv.Read(m.env.ints, i))
  {
    SlotValues(m.manifest.ints, m.env.ints)
  }

  /** `current_state`: the atomic values inserted first, then the plain values over them. */
  function CurrentState(m: Manifested): (st: Obs)
    ensures OrdMap.Sorted(st)
  {
    OrdMap.Extend(OrdMap.Extend([], AtomicIntValues(m)), IntValues(m))
  }

  /** Value pairs keep the manifest's key order. */
  lemma SlotValuesSorted(vars: seq<(string, LegacyManifest.VarRecord)>, vals: seq<i32>)
    requires OrdMap.Sorted(vars)
    ensures OrdMap.Sorted(SlotValues(vars, vals))
  {
    var vs := SlotValues(vars, vals);
    forall i, j | 0 <= i < j < |vs| ensures Text.StrLt(vs[i].0, vs[j].0) {
      assert vs[i].0 == vars[i].0 && vs[j].0 == vars[j].0;
    }
  }

  /**
   * A name's value in the current state is its plain value when it names a
   * plain variable, else its atomic value: on a shared name the plain value
   * wins.
   */
  lemma CurrentStatePlainWins(m: Manifested, k: string)
    requires OrdMap.Sorted(m.manifest.atomicInts) && OrdMap.Sorted(m.manifest.ints)
    ensures OrdMap.Get(CurrentState(m), k) ==
      if OrdMap.Get(IntValues(m), k).Some? then OrdMap.Get(IntValues(m), k)
      else OrdMap.Get(AtomicIntValues(m), k)
  {
    SlotValuesSorted(m.manifest.atomicInts, m.env.atomicInts);
    SlotValuesSorted(m.manifest.ints, m.env.ints);
    var a := OrdMap.Extend([], AtomicIntValues(m));
    OrdMap.ExtendGet(a, IntValues(m), k);
    OrdMap.SortedLastGet(IntValues(m), k);
    OrdMap.ExtendSorted(AtomicIntValues(m));
  }

  /** One `observe_state` step on the map. */
  function Step(obs: map<Obs, Info>, st: Obs, checked: CheckResult): map<Obs, Info> {
    obs[st := if st in obs then Inc(obs[st]) else Info(1, checked)]
  }

  /** The map after observing the history from an empty observer. */
  function ObsOf(h: seq<(Obs, CheckResult)>): map<Obs, Info> {
    if |h| == 0 then map[]
    else Step(ObsOf(h[..|h| - 1]), h[|h| - 1].0, h[|h| - 1].1)
  }

  /**
   * The map holds exactly the observed states, each with its exact number of
   * occurrences and the checker's verdict from its first observation.
   */
  lemma {:induction false} ObsOfMeaning(h: seq<(Obs, CheckResult)>, st: Obs)
    ensures st in ObsOf(h) <==> Seen(h, st)
    ensures st in ObsOf(h) ==> ObsOf(h)[st] == Info(Count(h, st), h[First(h, st)].1)
  {
    if |h| > 0 {
      var init := h[..|h| - 1];
      ObsOfMeaning(init, st);
      SeenSnoc(h, st);
      if Seen(init, st) {
        assert h[First(h, st)] == init[First(init, st)];
      }
    }
  }

  /** `Observer`: the deduplicated observations and the iteration count. */
  class Observer {
    var obs: map<Obs, Info>
    var iterations: nat
    /** Every observation so far: the state and the checker's verdict at that time. */
    ghost var history: seq<(Obs, CheckResult)>

    ghost predicate Valid()
      reads this
    {
      obs == ObsOf(history) && iterations == |history|
    }

    /** `Observer::new`: an empty map and no iterations. */
    constructor ()
      ensures Valid()
      ensures obs == map[] && iterations == 0 && history == []
    {
      obs := map[];
      iterations := 0;
      history := [];
    }

    /** `Observer::observe`: records the state, then counts one more iteration. */
    method Observe(env: Manifested, checker: Checker) returns (summary: Summary)
      requires Valid()
      modifies this
      ensures Valid()
      ensures history == old(history) + [(CurrentState(env), checker(env.env))]
      ensures iterations == old(iterations) + 1
      ensures obs == old(obs)[CurrentState(env) := summary.info]
      ensures summary == Summary(iterations, obs[CurrentState(env)])
    {
      var info := ObserveState(env, checker);
      iterations := iterations + 1;
      history := history + [(CurrentState(env), checker(env.env))];
      assert history[..|history| - 1] == old(history);
      summary := Summary(iterations, info);
    }

    /**
     * `Observer::observe_state`: a seen state's information is incremented
     * (the checker is not consulted); an unseen one is checked and stored
     * with one occurrence.
     */
    method ObserveState(env: Manifested, checker: Checker) returns (info: Info)
      modifies this
      ensures obs == Step(old(obs), CurrentState(env), checker(env.env))
      ensures info == obs[CurrentState(env)]
      ensures old(CurrentState(env) in obs) ==> info == Inc(old(obs[CurrentState(env)]))
      ensures old(CurrentState(env) !in obs) ==> info == Info(1, checker(env.env))
      ensures iterations == old(iterations) && history == old(history)
    {
      var state := CurrentState(env);
      if state in obs {
        info := Inc(obs[state]);
      } else {
        var checkResult := checker(env.env);
        info := Info(1, checkResult);
      }
      obs := obs[state := info];
    }
  }
}
