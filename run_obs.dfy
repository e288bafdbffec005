/**
 * The run-time observer (src/run/obs.rs): it reads the environment through
 * the manifest, deduplicates observed states into a map with per-state
 * information, counts iterations, and turns the map into a report. The
 * environment is the native-Rust one; a checker looks at its contents.
 */
module RunObs {
  import opened Prim
  import opened Wrappers
  import opened ModelOutcome
  import opened ModelState
  import opened Slot
  import opened Manifest
  import opened AbsCheck
  import opened History
  import ModelReport
  import OrdMap
  import RustEnv
  import Err

  /** `usize` arithmetic that stops at `usize::MAX`. */
  function Capped(n: nat): (r: usize)
    ensures r <= n
    ensures n <= USIZE_MAX ==> r == n
  {
    if n <= USIZE_MAX then n else USIZE_MAX
  }

  /** What `observe` reports back: the iteration count and this state's information. */
  datatype Summary = Summary(iterations: usize, info: Info)

  // ---------------------------------------------------------------------
  // Reading and resetting the environment through the manifest

  /** The (name, value) pairs of `i32_values`, in the manifest's key order. */
  function ValuesOf(vars: VarMap, c: RustEnv.Contents): (vs: State)
    ensures |vs| == |vars|
    ensures forall i :: 0 <= i < |vars| ==> vs[i] == (vars[i].0, I32(RustEnv.ReadSlot(c, vars[i].1.slot)))
  {
    seq(|vars|, i requires 0 <= i < |vars| => (vars[i].0, I32(RustEnv.ReadSlot(c, vars[i].1.slot))))
  }

  /**
   * `current_state`: a fresh map extended by the values. Because the manifest
   * is itself ordered by name, the state has exactly one entry per variable,
   * in the same order, holding the value in that variable's slot.
   */
  function CurrentStateOf(vars: VarMap, c: RustEnv.Contents): (st: State)
    requires OrdMap.Sorted(vars)
    ensures OrdMap.Sorted(st)
    ensures |st| == |vars|
    ensures forall i :: 0 <= i < |vars| ==> st[i] == (vars[i].0, I32(RustEnv.ReadSlot(c, vars[i].1.slot)))
  {
    var vs := ValuesOf(vars, c);
    assert OrdMap.Sorted(vs) by {
      forall i, j | 0 <= i < j < |vs| ensures Text.StrLt(vs[i].0, vs[j].0) {
        assert vs[i].0 == vars[i].0 && vs[j].0 == vars[j].0;
      }
    }
    OrdMap.ExtendSorted(vs);
    OrdMap.Extend([], vs)
  }

  /** The contents after `reset` has written each variable's initial value (or 0), in key order. */
  function ResetAll(c: RustEnv.Contents, vars: VarMap): RustEnv.Contents
  {
    if |vars| == 0 then c
    else
      var r := vars[|vars| - 1].1;
      RustEnv.WriteSlot(ResetAll(c, vars[..|vars| - 1]), r.slot, r.initialValue.UnwrapOr(0))
  }

  /** No two variables share a slot. */
  predicate DistinctSlots(vars: VarMap) {
    forall i, j :: 0 <= i < j < |vars| ==> vars[i].1.slot != vars[j].1.slot
  }

  /** The slot lies inside the contents. */
  predicate InRange(c: RustEnv.Contents, s: Slot) {
    s.index < |if s.isAtomic then c.atomic else c.nonAtomic|
  }

  /** Resetting keeps the shape of the contents. */
  lemma {:induction false} ResetAllShape(c: RustEnv.Contents, vars: VarMap)
    ensures |ResetAll(c, vars).atomic| == |c.atomic|
    ensures |ResetAll(c, vars).nonAtomic| == |c.nonAtomic|
  {
    if |vars| > 0 {
      ResetAllShape(c, vars[..|vars| - 1]);
    }
  }

  /**
   * After `reset`, every variable whose slot is in range holds its initial
   * value, or 0 when it has none (when no two variables share a slot).
   */
  lemma {:induction false} ResetAllReads(c: RustEnv.Contents, vars: VarMap, i: int)
    requires DistinctSlots(vars)
    requires 0 <= i < |vars|
    requires InRange(c, vars[i].1.slot)
    ensures RustEnv.ReadSlot(ResetAll(c, vars), vars[i].1.slot) == vars[i].1.initialValue.UnwrapOr(0)
  {
    var n := |vars| - 1;
    var init := vars[..n];
    ResetAllShape(c, init);
    if i == n {
      RustEnv.ReadSlotWriteSlotSame(ResetAll(c, init), vars[n].1.slot, vars[n].1.initialValue.UnwrapOr(0));
    } else {
      assert init[i] == vars[i];
      ResetAllReads(c, init, i);
      RustEnv.ReadSlotWriteSlotOther(ResetAll(c, init), vars[n].1.slot, vars[i].1.slot, vars[n].1.initialValue.UnwrapOr(0));
    }
  }

  /** `Manifested<Env>`: the native environment together with the manifest that interprets it. */
  class Manifested {
    const manifest: Manifest
    const env: RustEnv.Env

    /** The manifest's variable map is a `BTreeMap`, so it is ordered by name. */
    ghost predicate Valid()
      reads this, env, env.i32s
    {
      env.Valid() && OrdMap.Sorted(manifest.i32s)
    }

    constructor (manifest: Manifest, env: RustEnv.Env)
      ensures this.manifest == manifest && this.env == env
    {
      this.manifest := manifest;
      this.env := env;
    }

    /** `Manifested::for_manifest`: an environment reserved for the manifest, every slot 0. */
    static method ForManifest(m: Manifest) returns (r: Result<Manifested, Err.Error>)
      requires OrdMap.Sorted(m.i32s)
      ensures r.Ok?
      ensures r.Ok? ==> (fresh(r.value) && fresh(r.value.env) && fresh(r.value.env.i32s)
                         && fresh(r.value.env.i32s.atomic) && fresh(r.value.env.i32s.nonAtomic))
      ensures r.Ok? ==> r.value.Valid() && r.value.manifest == m
      ensures r.Ok? ==> r.value.env.Snapshot() == RustEnv.Contents(
                          seq(Reserve(m).i32s.atomic, _ => 0 as i32),
                          seq(Reserve(m).i32s.nonAtomic, _ => 0 as i32))
    {
      var made := RustEnv.Env.OfReservations(Reserve(m));
      // The native environment's `of_reservations` never fails.
      var mf := new Manifested(m, made.value);
      r := Ok(mf);
    }

    /** `Manifested::values` (which is `i32_values`): one pair per variable, in key order. */
    function Values(): (vs: State)
      reads this, env, env.i32s, env.i32s.atomic, env.i32s.nonAtomic
      ensures |vs| == |manifest.i32s|
      ensures forall i :: 0 <= i < |vs| ==> vs[i] == (manifest.i32s[i].0, I32(env.GetI32(manifest.i32s[i].1.slot)))
    {
      ValuesOf(manifest.i32s, env.Snapshot())
    }

    /** `current_state`. */
    function CurrentState(): (st: State)
      requires Valid()
      reads this, env, env.i32s, env.i32s.atomic, env.i32s.nonAtomic
      ensures st == CurrentStateOf(manifest.i32s, env.Snapshot())
    {
      OrdMap.Extend([], Values())
    }

    /** `Manifested::reset`: each variable's slot gets its initial value, or 0 without one. */
    method Reset()
      requires Valid()
      modifies env.i32s.atomic, env.i32s.nonAtomic
      ensures env.Snapshot() == ResetAll(old(env.Snapshot()), manifest.i32s)
    {
      var vars := manifest.i32s;
      var i := 0;
      while i < |vars|
        invariant 0 <= i <= |vars|
        invariant env.Snapshot() == ResetAll(old(env.Snapshot()), vars[..i])
      {
        assert vars[..i + 1][..i] == vars[..i];
        env.SetI32(vars[i].1.slot, vars[i].1.initialValue.UnwrapOr(0));
        i := i + 1;
      }
      assert vars[..|vars|] == vars;
    }
  }

  // ---------------------------------------------------------------------
  // The observation map as a function of the history of observations

  /**
   * One `observe_state` step on the map: a known state's information is
   * incremented; an unseen state gets the checker's outcome, 1 occurrence, and
   * the iteration count before this observation.
   */
  function Step(obs: map<State, Info>, iterations: usize, st: State, checked: Outcome): map<State, Info> {
    obs[st := if st in obs then Inc(obs[st]) else NewInfo(checked, iterations)]
  }

  /**
   * The map after observing the history from an empty observer; each entry
   * holds the state and the outcome the checker gives for the environment at
   * that moment.
   */
  function ObsOf(h: seq<(State, Outcome)>): map<State, Info> {
    if |h| == 0 then map[]
    else Step(ObsOf(h[..|h| - 1]), Capped(|h| - 1), h[|h| - 1].0, h[|h| - 1].1)
  }

  /**
   * The deduplicated map holds exactly the observed states; each has been
   * counted (up to `usize::MAX`), stamped with the iteration it was first
   * seen at, and given the checker's outcome from that first observation.
   */
  lemma {:induction false} ObsOfMeaning(h: seq<(State, Outcome)>, st: State)
    ensures st in ObsOf(h) <==> Seen(h, st)
    ensures st in ObsOf(h) ==>
      ObsOf(h)[st] == Info(Capped(First(h, st)), Capped(Count(h, st)), h[First(h, st)].1)
  {
    if |h| > 0 {
      var n := |h| - 1;
      var init := h[..n];
      ObsOfMeaning(init, st);
      SeenSnoc(h, st);
      if Seen(init, st) {
        assert h[First(h, st)] == init[First(init, st)];
      }
    }
  }

  /** The map has at most one entry per observation. */
  lemma {:induction false} ObsOfSize(h: seq<(State, Outcome)>)
    ensures |ObsOf(h)| <= |h|
  {
    if |h| > 0 {
      ObsOfSize(h[..|h| - 1]);
    }
  }

  /**
   * The report states list each state of `keys` exactly once, in some order,
   * with its information from `obs`.
   */
  predicate ListsExactly(rs: seq<ModelReport.ReportState>, keys: set<State>, obs: map<State, Info>) {
    |rs| == |keys|
    && (forall i :: 0 <= i < |rs| ==> rs[i].state in keys && rs[i].state in obs && rs[i].info == obs[rs[i].state])
    && (forall st :: st in keys ==> st in ModelReport.StatesOf(rs))
    && (forall i, j :: 0 <= i < j < |rs| ==> rs[i].state != rs[j].state)
  }

  /** Appending an entry not yet listed lists one more key. */
  lemma ListsExactlySnoc(rs: seq<ModelReport.ReportState>, keys: set<State>, obs: map<State, Info>, st: State)
    requires ListsExactly(rs, keys, obs)
    requires st in obs && st !in keys
    ensures ListsExactly(rs + [ModelReport.ReportState(st, obs[st])], keys + {st}, obs)
  {
    var rs' := rs + [ModelReport.ReportState(st, obs[st])];
    assert ModelReport.StatesOf(rs') == ModelReport.StatesOf(rs) + [st];
    forall i | 0 <= i < |rs| ensures rs[i].state != st {
      assert rs[i].state in keys;
    }
  }

  // ---------------------------------------------------------------------
  // The observer

  /** `Observer`: the deduplicated observations and the number of iterations so far. */
  class Observer {
    var obs: map<State, Info>
    var iterations: usize
    /** Every observation so far: the state and the checker's outcome at that time. */
    ghost var history: seq<(State, Outcome)>

    ghost predicate Valid()
      reads this
    {
      obs == ObsOf(history) && iterations == Capped(|history|)
    }

    /** `Observer::new`: no observations and no iterations. */
    constructor ()
      ensures Valid()
      ensures obs == map[] && iterations == 0 && history == []
    {
      obs := map[];
      iterations := 0;
      history := [];
    }

    /**
     * `Observer::observe`: records the current state, then counts the
     * iteration (saturating); the summary carries the new count and the
     * state's information.
     */
    method Observe(env: Manifested, checker: Checker<RustEnv.Contents>) returns (summary: Summary)
      requires Valid() && env.Valid()
      modifies this
      ensures Valid()
      ensures history == old(history) + [(env.CurrentState(), Check(checker, env.env.Snapshot()))]
      ensures iterations == SaturatingInc(old(iterations))
      ensures obs == old(obs)[env.CurrentState() := summary.info]
      ensures summary == Summary(iterations, obs[env.CurrentState()])
    {
      ghost var entry := (env.CurrentState(), Check(checker, env.env.Snapshot()));
      var info := ObserveState(env, checker);
      iterations := SaturatingInc(iterations);
      history := history + [entry];
      assert history[..|history| - 1] == old(history);
      assert ObsOf(history) == Step(old(obs), Capped(|old(history)|), entry.0, entry.1);
      summary := Summary(iterations, info);
    }

    /** `Observer::observe_state`: one `Step` on the map. */
    method ObserveState(env: Manifested, checker: Checker<RustEnv.Contents>) returns (info: Info)
      requires env.Valid()
      modifies this
      ensures obs == Step(old(obs), iterations, env.CurrentState(), Check(checker, env.env.Snapshot()))
      ensures info == obs[env.CurrentState()]
      ensures old(env.CurrentState() in obs) ==> info == Inc(old(obs[env.CurrentState()]))
      ensures old(env.CurrentState() !in obs) ==> info == NewInfo(Check(checker, env.env.Snapshot()), iterations)
      ensures iterations == old(iterations) && history == old(history)
    {
      var state := env.CurrentState();
      if state in obs {
        info := Inc(obs[state]);
      } else {
        info := ObserveStateForFirstTime(env, checker);
      }
      obs := obs[state := info];
    }

    /** `Observer::observe_state_for_first_time`: the checker's outcome, seen once, at this iteration. */
    method ObserveStateForFirstTime(env: Manifested, checker: Checker<RustEnv.Contents>) returns (info: Info)
      ensures info.occurs == 1
      ensures info.outcome == Check(checker, env.env.Snapshot())
      ensures info.iteration == iterations
    {
      var outcome := Check(checker, env.env.Snapshot());
      info := NewInfo(outcome, iterations);
    }

    /**
     * `Observer::into_report`: one report state per map entry, in some
     * order, and the overall outcome is the maximum of their outcomes.
     */
    method IntoReport() returns (report: ModelReport.Report)
      ensures fresh(report) && report.Valid()
      ensures ListsExactly(report.states, obs.Keys, obs)
      ensures report.outcome.None? <==> |obs| == 0
    {
      report := new ModelReport.Report();
      InsertAll(report);
      ModelOutcome.MaxOfMeaning(ModelReport.Outcomes(report.states));
    }

    /** The loop of `into_report`: one report state per map entry, appended in some order. */
    method InsertAll(report: ModelReport.Report)
      requires report.Valid() && report.states == []
      modifies report
      ensures report.Valid()
      ensures ListsExactly(report.states, obs.Keys, obs)
    {
      var remaining := obs.Keys;
      ghost var done: set<State> := {};
      while remaining != {}
        invariant remaining == obs.Keys - done && done <= obs.Keys
        invariant report.Valid()
        invariant ListsExactly(report.states, done, obs)
        decreases remaining
      {
        var st :| st in remaining;
        ListsExactlySnoc(report.states, done, obs, st);
        report.Insert(ModelReport.ReportState(st, obs[st]));
        done := done + {st};
        remaining := remaining - {st};
      }
      assert done == obs.Keys;
    }
  }
}
