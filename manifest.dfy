/**
 * Test manifests: the variables a test declares. `Manifest` is the
 * generation the run-time observer and the `api` C loader use (each record
 * carries its slot); `LegacyManifest` is src/manifest.rs, used by src/c.rs and
 * src/testapi/c/manifest.rs.
 */
module Manifest {
  import opened Prim
  import opened Wrappers
  import opened Slot
  import OrdMap

  /** A variable record: its optional initial value and its slot in the environment. */
  datatype VarRecord = VarRecord(initialValue: Option<i32>, slot: Slot)

  /** `VarMap<i32>`: a `BTreeMap<String, VarRecord<i32>>`. */
  type VarMap = seq<(string, VarRecord)>

  /** A manifest: a non-zero thread count and the 32-bit integer variables. */
  datatype Manifest = Manifest(nThreads: NonZeroUsize, i32s: VarMap)

  /** The slots of the records, in key order. */
  function Slots(vars: VarMap): (s: seq<Slot>)
    ensures |s| == |vars|
    ensures forall i :: 0 <= i < |vars| ==> s[i] == vars[i].1.slot
  {
    seq(|vars|, i requires 0 <= i < |vars| => vars[i].1.slot)
  }

  /** `Manifest::reserve`: a reservation sized by `of_slots` over the records' slots. */
  function Reserve(m: Manifest): (r: ReservationSet)
    ensures r.i32s == OfSlots(Slots(m.i32s))
  {
    ReservationSet(OfSlots(Slots(m.i32s)))
  }

  /** Every variable's slot lies inside the reservation made for its manifest. */
  lemma ReserveCovers(m: Manifest, i: int)
    requires 0 <= i < |m.i32s|
    ensures m.i32s[i].1.slot.index < CountFor(Reserve(m).i32s, m.i32s[i].1.slot.isAtomic)
  {
    OfSlotsIsTight(Slots(m.i32s), m.i32s[i].1.slot.isAtomic);
  }
}

/**
 * src/manifest.rs: the earlier manifest, with separate atomic and plain maps
 * (src/model/manifest.rs has the same shape, naming them `atomic_i32s` and
 * `i32s`).
 */
module LegacyManifest {
  import opened Prim
  import opened Wrappers

  /** A variable record: only its optional initial value. */
  datatype VarRecord = VarRecord(initialValue: Option<i32>)

  datatype Manifest = Manifest(
    nThreads: nat,
    atomicInts: seq<(string, VarRecord)>,
    ints: seq<(string, VarRecord)>)
}
