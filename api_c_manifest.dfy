/**
 * The manifest a C test exports (src/api/c/manifest.rs), and its conversion
 * into a `Manifest.Manifest`. The C arrays behind the raw pointers are
 * sequences; the C strings are taken as already converted to strings.
 */
module ApiCManifest {
  import opened Prim
  import opened Wrappers
  import opened Slot
  import Err
  import OrdMap
  import Manifest

  /**
   * The raw `struct manifest`: the thread count, then for each of the two
   * kinds of variable a count, an array of initial values and an array of
   * names. An array is only read when its count is not zero.
   */
  datatype Raw = Raw(
    nThreads: usize,
    nAtomicI32: usize,
    atomicI32Initials: seq<i32>,
    atomicI32Names: seq<string>,
    nI32: usize,
    i32Initials: seq<i32>,
    i32Names: seq<string>)

  /** What the C side promises: every array it gives a non-zero count for holds that many entries. */
  predicate WellFormed(raw: Raw) {
    && (raw.nAtomicI32 > 0 ==> |raw.atomicI32Initials| >= raw.nAtomicI32 && |raw.atomicI32Names| >= raw.nAtomicI32)
    && (raw.nI32 > 0 ==> |raw.i32Initials| >= raw.nI32 && |raw.i32Names| >= raw.nI32)
  }

  /** `names`: nothing for a zero count, else the first `n` names of the array. */
  function Names(src: seq<string>, n: usize): (r: seq<string>)
    requires n > 0 ==> |src| >= n
    ensures |r| == n
    ensures forall i :: 0 <= i < n ==> r[i] == src[i]
  {
    if n == 0 then [] else src[..n]
  }

  /** `initials`: nothing for a zero count, else the first `n` values of the array. */
  function Initials(src: seq<i32>, n: usize): (r: seq<i32>)
    requires n > 0 ==> |src| >= n
    ensures |r| == n
    ensures forall i :: 0 <= i < n ==> r[i] == src[i]
  {
    if n == 0 then [] else src[..n]
  }

  /** The record `lift_to_var_map` makes for the `i`th initial value. */
  function RecordAt(inits: seq<i32>, isAtomic: bool, i: nat): Manifest.VarRecord
    requires i < |inits| && i <= USIZE_MAX
  {
    Manifest.VarRecord(Some(inits[i]), Slot(isAtomic, i))
  }

  /**
   * `lift_to_var_map`: the `i`th name maps to the `i`th initial value in slot
   * `i` of the given kind; surplus names or values are dropped, and when a
   * name repeats, its last occurrence wins.
   */
  function LiftToVarMap(names: seq<string>, inits: seq<i32>, isAtomic: bool): (r: Manifest.VarMap)
    requires |inits| <= USIZE_MAX
    ensures OrdMap.Sorted(r)
    ensures |r| <= |names| && |r| <= |inits|
    ensures forall k :: OrdMap.Get(r, k).Some? <==> exists i :: 0 <= i < |names| && i < |inits| && names[i] == k
    ensures forall i :: 0 <= i < |names| && i < |inits| && (forall j :: i < j < |names| && j < |inits| ==> names[j] != names[i]) ==>
              OrdMap.Get(r, names[i]) == Some(RecordAt(inits, isAtomic, i))
  {
    var records := seq(|inits|, i requires 0 <= i < |inits| => RecordAt(inits, isAtomic, i));
    var pairs := OrdMap.Zip(names, records);
    OrdMap.CollectGet(pairs);
    OrdMap.Collect(pairs)
  }

  /** The plain variables' map, before the atomic ones are added. */
  function PlainMap(raw: Raw): Manifest.VarMap
    requires WellFormed(raw)
  {
    LiftToVarMap(Names(raw.i32Names, raw.nI32), Initials(raw.i32Initials, raw.nI32), false)
  }

  /** The atomic variables' map. */
  function AtomicMap(raw: Raw): Manifest.VarMap
    requires WellFormed(raw)
  {
    LiftToVarMap(Names(raw.atomicI32Names, raw.nAtomicI32), Initials(raw.atomicI32Initials, raw.nAtomicI32), true)
  }

  /** `m` binds each name as the atomic map does, and names the atomic map lacks as the plain map does. */
  ghost predicate AtomicOverPlain(raw: Raw, m: Manifest.VarMap)
    requires WellFormed(raw)
  {
    forall k :: OrdMap.Get(m, k) ==
      if OrdMap.Get(AtomicMap(raw), k).Some? then OrdMap.Get(AtomicMap(raw), k) else OrdMap.Get(PlainMap(raw), k)
  }

  /**
   * `Manifest::i32_map`: the plain variables' map, extended by the atomic
   * variables' map, so an atomic variable wins over a plain one of the same
   * name.
   */
  method I32Map(raw: Raw) returns (map': Manifest.VarMap)
    requires WellFormed(raw)
    ensures OrdMap.Sorted(map')
    ensures AtomicOverPlain(raw, map')
  {
    map' := LiftToVarMap(Names(raw.i32Names, raw.nI32), Initials(raw.i32Initials, raw.nI32), false);
    ghost var plain := map';
    var atomic := LiftToVarMap(Names(raw.atomicI32Names, raw.nAtomicI32), Initials(raw.atomicI32Initials, raw.nAtomicI32), true);
    map' := OrdMap.Extend(map', atomic);
    forall k ensures OrdMap.Get(map', k) == if OrdMap.Get(atomic, k).Some? then OrdMap.Get(atomic, k) else OrdMap.Get(plain, k) {
      OrdMap.ExtendGet(plain, atomic, k);
      OrdMap.SortedLastGet(atomic, k);
    }
  }

  /**
   * `Manifest::to_manifest`: a zero thread count is `NotEnoughThreads`;
   * otherwise the thread count and the merged variable map, which is a
   * well-formed map.
   */
  method ToManifest(raw: Raw) returns (r: Result<Manifest.Manifest, Err.Error>)
    requires WellFormed(raw)
    ensures r.Err? <==> raw.nThreads == 0
    ensures r.Err? ==> r.error == Err.NotEnoughThreads
    ensures r.Ok? ==> r.value.nThreads == raw.nThreads && OrdMap.Sorted(r.value.i32s)
    ensures r.Ok? ==> AtomicOverPlain(raw, r.value.i32s)
  {
    if raw.nThreads == 0 {
      return Err(Err.NotEnoughThreads);
    }
    var i32s := I32Map(raw);
    r := Ok(Manifest.Manifest(raw.nThreads, i32s));
  }

  /** A variable of both kinds under one name is the atomic one. */
  lemma AtomicWins(raw: Raw, i: nat, k: string)
    requires WellFormed(raw)
    requires i < raw.nAtomicI32 && raw.atomicI32Names[i] == k
    requires forall j :: i < j < raw.nAtomicI32 ==> raw.atomicI32Names[j] != k
    ensures OrdMap.Get(AtomicMap(raw), k) == Some(Manifest.VarRecord(Some(raw.atomicI32Initials[i]), Slot(true, i)))
  {
    var names := Names(raw.atomicI32Names, raw.nAtomicI32);
    assert names[i] == k;
  }
}
