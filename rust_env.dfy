/**
 * The native-Rust environment (src/api/rust/env.rs): per type, one
 * fixed-length vector of atomic slots and one of non-atomic slots. Relaxed
 * atomic loads and stores become plain reads and writes.
 */
module RustEnv {
  import opened Prim
  import opened Slot
  import opened Wrappers
  import Err

  /** `vec.get(index).unwrap_or_default()`: the element, or 0 out of range. */
  function Read(vals: seq<i32>, index: nat): (v: i32)
    ensures index < |vals| ==> v == vals[index]
    ensures |vals| <= index ==> v == 0
  {
    if index < |vals| then vals[index] else 0
  }

  /** A store through `vec.get(index)`: only an in-range index is written. */
  function Write(vals: seq<i32>, index: nat, v: i32): (r: seq<i32>)
    ensures |r| == |vals|
    ensures forall i :: 0 <= i < |vals| && i != index ==> r[i] == vals[i]
    ensures index < |vals| ==> r[index] == v
  {
    if index < |vals| then vals[index := v] else vals
  }

  /** Reading back a written in-range slot gives the written value. */
  lemma ReadWriteSame(vals: seq<i32>, index: nat, v: i32)
    requires index < |vals|
    ensures Read(Write(vals, index, v), index) == v
  {
  }

  /** Writing one slot leaves every other slot's reading unchanged. */
  lemma ReadWriteOther(vals: seq<i32>, index: nat, other: nat, v: i32)
    requires index != other
    ensures Read(Write(vals, index, v), other) == Read(vals, other)
  {
  }

  /** An out-of-range write changes nothing. */
  lemma WriteOutOfRange(vals: seq<i32>, index: nat, v: i32)
    requires |vals| <= index
    ensures Write(vals, index, v) == vals
  {
  }

  /** The contents of a slot set: the atomic and the non-atomic values. */
  datatype Contents = Contents(atomic: seq<i32>, nonAtomic: seq<i32>)

  /** `Slotset::get` on contents: the slot's value, or 0 out of range. */
  function ReadSlot(c: Contents, slot: Slot): (v: i32)
    ensures slot.isAtomic ==> v == Read(c.atomic, slot.index)
    ensures !slot.isAtomic ==> v == Read(c.nonAtomic, slot.index)
  {
    if slot.isAtomic then Read(c.atomic, slot.index) else Read(c.nonAtomic, slot.index)
  }

  /** `Slotset::set` on contents: only the slot's own vector can change. */
  function WriteSlot(c: Contents, slot: Slot, v: i32): (r: Contents)
    ensures |r.atomic| == |c.atomic| && |r.nonAtomic| == |c.nonAtomic|
    ensures slot.isAtomic ==> r.nonAtomic == c.nonAtomic
    ensures !slot.isAtomic ==> r.atomic == c.atomic
  {
    if slot.isAtomic then c.(atomic := Write(c.atomic, slot.index, v))
    else c.(nonAtomic := Write(c.nonAtomic, slot.index, v))
  }

  /** An in-range slot reads back the value just written to it. */
  lemma ReadSlotWriteSlotSame(c: Contents, slot: Slot, v: i32)
    requires slot.index < |if slot.isAtomic then c.atomic else c.nonAtomic|
    ensures ReadSlot(WriteSlot(c, slot, v), slot) == v
  {
  }

  /** Writing one slot leaves the reading of every other slot unchanged. */
  lemma ReadSlotWriteSlotOther(c: Contents, slot: Slot, other: Slot, v: i32)
    requires slot != other
    ensures ReadSlot(WriteSlot(c, slot, v), other) == ReadSlot(c, other)
  {
  }

  /** Writing an out-of-range slot changes nothing. */
  lemma WriteSlotOutOfRange(c: Contents, slot: Slot, v: i32)
    requires |if slot.isAtomic then c.atomic else c.nonAtomic| <= slot.index
    ensures WriteSlot(c, slot, v) == c
  {
  }

  /** `default_vec`: a vector of `len` zeroes. */
  method DefaultVec(len: nat) returns (a: array<i32>)
    ensures fresh(a)
    ensures a.Length == len
    ensures forall i :: 0 <= i < len ==> a[i] == 0
  {
    a := new i32[len](_ => 0);
  }

  /** `Slotset<AtomicI32, i32>`. */
  class Slotset {
    const atomic: array<i32>
    const nonAtomic: array<i32>

    /** The two vectors are distinct storage. */
    ghost predicate Valid()
      reads this
    {
      atomic != nonAtomic
    }

    /** `Slotset::new`: zero-filled vectors of the reserved lengths. */
    constructor (res: Reservation)
      ensures Valid()
      ensures fresh(atomic) && fresh(nonAtomic)
      ensures atomic[..] == seq(res.atomic, _ => 0 as i32)
      ensures nonAtomic[..] == seq(res.nonAtomic, _ => 0 as i32)
    {
      var a := DefaultVec(res.atomic);
      var n := DefaultVec(res.nonAtomic);
      atomic, nonAtomic := a, n;
    }

    /** `Slotset::get`, dispatching to `get_atomic` or `get_non_atomic`. */
    function Get(slot: Slot): (v: i32)
      reads this, atomic, nonAtomic
      ensures slot.isAtomic ==> v == Read(atomic[..], slot.index)
      ensures !slot.isAtomic ==> v == Read(nonAtomic[..], slot.index)
    {
      if slot.isAtomic then GetAtomic(slot.index) else GetNonAtomic(slot.index)
    }

    /** `Slotset::get_atomic`: 0 when the index is past the end. */
    function GetAtomic(index: usize): (v: i32)
      reads this, atomic
      ensures index < atomic.Length ==> v == atomic[index]
      ensures atomic.Length <= index ==> v == 0
    {
      if index < atomic.Length then atomic[index] else 0
    }

    /** `Slotset::get_non_atomic`: 0 when the index is past the end. */
    function GetNonAtomic(index: usize): (v: i32)
      reads this, nonAtomic
      ensures index < nonAtomic.Length ==> v == nonAtomic[index]
      ensures nonAtomic.Length <= index ==> v == 0
    {
      if index < nonAtomic.Length then nonAtomic[index] else 0
    }

    /** `Slotset::set`: writes the slot if it is in range; the other vector is untouched. */
    method Set(slot: Slot, v: i32)
      requires Valid()
      modifies atomic, nonAtomic
      ensures atomic[..] == if slot.isAtomic then Write(old(atomic[..]), slot.index, v) else old(atomic[..])
      ensures nonAtomic[..] == if slot.isAtomic then old(nonAtomic[..]) else Write(old(nonAtomic[..]), slot.index, v)
    {
      if slot.isAtomic {
        if slot.index < atomic.Length {
          atomic[slot.index] := v;
        }
      } else if slot.index < nonAtomic.Length {
        nonAtomic[slot.index] := v;
      }
    }
  }

  /** The native-Rust `Env`: a slot set of 32-bit integers. */
  class Env {
    const i32s: Slotset

    ghost predicate Valid()
      reads this, i32s
    {
      i32s.Valid()
    }

    constructor (res: ReservationSet)
      ensures Valid() && fresh(i32s) && fresh(i32s.atomic) && fresh(i32s.nonAtomic)
      ensures i32s.atomic[..] == seq(res.i32s.atomic, _ => 0 as i32)
      ensures i32s.nonAtomic[..] == seq(res.i32s.nonAtomic, _ => 0 as i32)
    {
      i32s := new Slotset(res.i32s);
    }

    /** `Env::of_reservations`: always succeeds, with every reserved slot zero. */
    static method OfReservations(res: ReservationSet) returns (r: Result<Env, Err.Error>)
      ensures r.Ok?
      ensures r.Ok? ==> (r.value.Valid() && fresh(r.value) && fresh(r.value.i32s)
                         && fresh(r.value.i32s.atomic) && fresh(r.value.i32s.nonAtomic))
      ensures r.Ok? ==> r.value.i32s.atomic[..] == seq(res.i32s.atomic, _ => 0 as i32)
      ensures r.Ok? ==> r.value.i32s.nonAtomic[..] == seq(res.i32s.nonAtomic, _ => 0 as i32)
      ensures r.Ok? ==> forall s: Slot :: r.value.GetI32(s) == 0
    {
      var e := new Env(res);
      r := Ok(e);
    }

    /** The values held by the environment. */
    function Snapshot(): Contents
      reads this, i32s, i32s.atomic, i32s.nonAtomic
    {
      Contents(i32s.atomic[..], i32s.nonAtomic[..])
    }

    /** `Env::get_i32`. */
    function GetI32(slot: Slot): (v: i32)
      reads this, i32s, i32s.atomic, i32s.nonAtomic
      ensures v == ReadSlot(Snapshot(), slot)
    {
      i32s.Get(slot)
    }

    /** `Env::set_i32`. */
    method SetI32(slot: Slot, v: i32)
      requires Valid()
      modifies i32s.atomic, i32s.nonAtomic
      ensures Snapshot() == WriteSlot(old(Snapshot()), slot, v)
    {
      i32s.Set(slot, v);
    }
  }
}
