/**
 * The earlier C manifest conversion, found line for line in both src/c.rs
 * (`CManifest`) and src/testapi/c/manifest.rs (`Manifest`): separate maps
 * for the atomic and the plain integers, records holding only an initial
 * value. The raw arrays are read as in `ApiCManifest.Names` and
 * `ApiCManifest.Initials`, whose definitions these files repeat.
 */
module LegacyCManifest {
  import opened Prim
  import opened Wrappers
  import Err
  import OrdMap
  import LegacyManifest
  import ApiCManifest

  /** The raw `struct manifest`: the thread count, the two counts, the two value arrays and the two name arrays. */
  datatype Raw = Raw(
    nThreads: usize,
    nAtomicInts: usize,
    nInts: usize,
    atomicIntInitials: seq<i32>,
    intInitials: seq<i32>,
    atomicIntNames: seq<string>,
    intNames: seq<string>)

  /** What the C side promises: every array it gives a non-zero count for holds that many entries. */
  predicate WellFormed(raw: Raw) {
    && (raw.nAtomicInts > 0 ==> |raw.atomicIntInitials| >= raw.nAtomicInts && |raw.atomicIntNames| >= raw.nAtomicInts)
    && (raw.nInts > 0 ==> |raw.intInitials| >= raw.nInts && |raw.intNames| >= raw.nInts)
  }

  type VarMap = seq<(string, LegacyManifest.VarRecord)>

  /**
   * `lift_to_var_map`: the `i`th name maps to `Some` of the `i`th initial
   * value; surplus names or values are dropped, and when a name repeats, its
   * last occurrence wins.
   */
  function LiftToVarMap(names: seq<string>, inits: seq<i32>): (r: VarMap)
    ensures OrdMap.Sorted(r)
    ensures |r| <= |names| && |r| <= |inits|
    ensures forall k :: OrdMap.Get(r, k).Some? <==> exists i :: 0 <= i < |names| && i < |inits| && names[i] == k
    ensures forall i :: 0 <= i < |names| && i < |inits| && (forall j :: i < j < |names| && j < |inits| ==> names[j] != names[i]) ==>
              OrdMap.Get(r, names[i]) == Some(LegacyManifest.VarRecord(Some(inits[i])))
  {
    var records := seq(|inits|, i requires 0 <= i < |inits| => LegacyManifest.VarRecord(Some(inits[i])));
    var pairs := OrdMap.Zip(names, records);
    OrdMap.CollectGet(pairs);
    OrdMap.Collect(pairs)
  }

  /** The map for one kind names exactly the first `n` names of its array. */
  lemma KindNames(names: seq<string>, inits: seq<i32>, n: usize)
    requires n > 0 ==> |names| >= n && |inits| >= n
    ensures forall k :: OrdMap.Get(LiftToVarMap(ApiCManifest.Names(names, n), ApiCManifest.Initials(inits, n)), k).Some? <==>
                        exists i :: 0 <= i < n && names[i] == k
  {
    var ns := ApiCManifest.Names(names, n);
    forall k ensures OrdMap.Get(LiftToVarMap(ns, ApiCManifest.Initials(inits, n)), k).Some? <==>
                     exists i :: 0 <= i < n && names[i] == k
    {
      if i :| 0 <= i < n && names[i] == k {
        assert ns[i] == k;
      }
    }
  }

  /** `atomic_int_map`: the first `nAtomicInts` atomic names, each bound to its own initial value. */
  function AtomicIntMap(raw: Raw): (r: VarMap)
    requires WellFormed(raw)
    ensures OrdMap.Sorted(r)
    ensures forall k :: OrdMap.Get(r, k).Some? <==> exists i :: 0 <= i < raw.nAtomicInts && raw.atomicIntNames[i] == k
    ensures forall i :: 0 <= i < raw.nAtomicInts
                        && (forall j :: i < j < raw.nAtomicInts ==> raw.atomicIntNames[j] != raw.atomicIntNames[i]) ==>
              OrdMap.Get(r, raw.atomicIntNames[i]) == Some(LegacyManifest.VarRecord(Some(raw.atomicIntInitials[i])))
  {
    KindNames(raw.atomicIntNames, raw.atomicIntInitials, raw.nAtomicInts);
    LiftToVarMap(ApiCManifest.Names(raw.atomicIntNames, raw.nAtomicInts), ApiCManifest.Initials(raw.atomicIntInitials, raw.nAtomicInts))
  }

  /** `int_map`: the first `nInts` plain names, each bound to its own initial value. */
  function IntMap(raw: Raw): (r: VarMap)
    requires WellFormed(raw)
    ensures OrdMap.Sorted(r)
    ensures forall k :: OrdMap.Get(r, k).Some? <==> exists i :: 0 <= i < raw.nInts && raw.intNames[i] == k
    ensures forall i :: 0 <= i < raw.nInts
                        && (forall j :: i < j < raw.nInts ==> raw.intNames[j] != raw.intNames[i]) ==>
              OrdMap.Get(r, raw.intNames[i]) == Some(LegacyManifest.VarRecord(Some(raw.intInitials[i])))
  {
    KindNames(raw.intNames, raw.intInitials, raw.nInts);
    LiftToVarMap(ApiCManifest.Names(raw.intNames, raw.nInts), ApiCManifest.Initials(raw.intInitials, raw.nInts))
  }

  /**
   * `to_manifest`: a zero thread count is `NotEnoughThreads`; otherwise the
   * thread count and one map per kind of variable, each naming exactly the
   * variables of its kind, each bound to its own initial value.
   */
  function ToManifest(raw: Raw): (r: Result<LegacyManifest.Manifest, Err.Error>)
    requires WellFormed(raw)
    ensures r.Err? <==> raw.nThreads == 0
    ensures r.Err? ==> r.error == Err.NotEnoughThreads
    ensures r.Ok? ==> r.value.nThreads == raw.nThreads
    ensures r.Ok? ==> OrdMap.Sorted(r.value.atomicInts) && OrdMap.Sorted(r.value.ints)
    ensures r.Ok? ==> forall k :: OrdMap.Get(r.value.atomicInts, k).Some? <==>
                        exists i :: 0 <= i < raw.nAtomicInts && raw.atomicIntNames[i] == k
    ensures r.Ok? ==> forall k :: OrdMap.Get(r.value.ints, k).Some? <==>
                        exists i :: 0 <= i < raw.nInts && raw.intNames[i] == k
  {
    if raw.nThreads == 0 then Err(Err.NotEnoughThreads)
    else
      Ok(LegacyManifest.Manifest(raw.nThreads, AtomicIntMap(raw), IntMap(raw)))
  }

  /** The two maps are built independently: each depends only on its own count and arrays. */
  lemma MapsIndependent(raw1: Raw, raw2: Raw)
    requires WellFormed(raw1) && WellFormed(raw2) && raw1.nThreads > 0 && raw2.nThreads > 0
    requires raw1.nAtomicInts == raw2.nAtomicInts && raw1.nAtomicInts > 0
    requires raw1.atomicIntNames[..raw1.nAtomicInts] == raw2.atomicIntNames[..raw2.nAtomicInts]
    requires raw1.atomicIntInitials[..raw1.nAtomicInts] == raw2.atomicIntInitials[..raw2.nAtomicInts]
    ensures ToManifest(raw1).value.atomicInts == ToManifest(raw2).value.atomicInts
  {
  }
}
