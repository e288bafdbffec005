/** Slots and slot reservations (src/model/slot.rs). */
module Slot {
  import opened Prim

  /** Where a variable lives: which list (atomic or not) and its index there. */
  datatype Slot = Slot(isAtomic: bool, index: usize)

  /** How many atomic and non-atomic slots the environment must reserve. */
  datatype Reservation = Reservation(atomic: nat, nonAtomic: nat)

  /** The reservations per integer type; only 32-bit integers exist. */
  datatype ReservationSet = ReservationSet(i32s: Reservation)

  /** The count of `r` for the kind of `s`. */
  function CountFor(r: Reservation, isAtomic: bool): nat {
    if isAtomic then r.atomic else r.nonAtomic
  }

  /** `Reservation::add_slot`: grows the count of the slot's kind to cover its index. */
  function AddSlot(r: Reservation, s: Slot): (r': Reservation)
    ensures s.index < CountFor(r', s.isAtomic)
    ensures CountFor(r, s.isAtomic) <= CountFor(r', s.isAtomic)
    ensures CountFor(r', s.isAtomic) == CountFor(r, s.isAtomic) || CountFor(r', s.isAtomic) == s.index + 1
    ensures CountFor(r', !s.isAtomic) == CountFor(r, !s.isAtomic)
  {
    if s.isAtomic then r.(atomic := if r.atomic < s.index + 1 then s.index + 1 else r.atomic)
    else r.(nonAtomic := if r.nonAtomic < s.index + 1 then s.index + 1 else r.nonAtomic)
  }

  /** Adding the same slot twice reserves no more than adding it once. */
  lemma AddSlotIdempotent(r: Reservation, s: Slot)
    ensures AddSlot(AddSlot(r, s), s) == AddSlot(r, s)
  {
  }

  /** `Reservation::of_slots`: a left fold of `add_slot` from the empty reservation. */
  function OfSlots(slots: seq<Slot>): (r: Reservation)
    ensures forall i :: 0 <= i < |slots| ==> slots[i].index < CountFor(r, slots[i].isAtomic)
  {
    if |slots| == 0 then Reservation(0, 0)
    else AddSlot(OfSlots(slots[..|slots| - 1]), slots[|slots| - 1])
  }

  /**
   * `n` is exactly one more than the largest index among the slots of one
   * kind, or 0 when there are none of that kind.
   */
  predicate IsTightBound(slots: seq<Slot>, isAtomic: bool, n: nat) {
    (forall i :: 0 <= i < |slots| && slots[i].isAtomic == isAtomic ==> slots[i].index < n)
    && (n == 0 || exists i :: 0 <= i < |slots| && slots[i].isAtomic == isAtomic && slots[i].index + 1 == n)
  }

  /** Each count of `of_slots` is one more than the largest index of that kind, or 0. */
  lemma {:induction false} OfSlotsIsTight(slots: seq<Slot>, isAtomic: bool)
    ensures IsTightBound(slots, isAtomic, CountFor(OfSlots(slots), isAtomic))
  {
    if |slots| > 0 {
      var init := slots[..|slots| - 1];
      OfSlotsIsTight(init, isAtomic);
      var n := CountFor(OfSlots(slots), isAtomic);
      if n != 0 {
        if n == CountFor(OfSlots(init), isAtomic) {
          var i :| 0 <= i < |init| && init[i].isAtomic == isAtomic && init[i].index + 1 == n;
          assert slots[i] == init[i];
        } else {
          assert slots[|slots| - 1].index + 1 == n;
        }
      }
      forall i | 0 <= i < |slots| && slots[i].isAtomic == isAtomic
        ensures slots[i].index < n
      {
        if i < |slots| - 1 {
          assert slots[i] == init[i];
        }
      }
    }
  }

  /** A tight bound is unique. */
  lemma TightBoundUnique(slots: seq<Slot>, isAtomic: bool, n: nat, m: nat)
    requires IsTightBound(slots, isAtomic, n) && IsTightBound(slots, isAtomic, m)
    ensures n == m
  {
  }

  /** `of_slots` does not depend on the order of the slots. */
  lemma OfSlotsOrderIndependent(a: seq<Slot>, b: seq<Slot>)
    requires multiset(a) == multiset(b)
    ensures OfSlots(a) == OfSlots(b)
  {
    forall isAtomic: bool
      ensures CountFor(OfSlots(a), isAtomic) == CountFor(OfSlots(b), isAtomic)
    {
      var n, m := CountFor(OfSlots(a), isAtomic), CountFor(OfSlots(b), isAtomic);
      OfSlotsIsTight(a, isAtomic);
      OfSlotsIsTight(b, isAtomic);
      assert IsTightBound(b, isAtomic, n) by {
        forall j | 0 <= j < |b| && b[j].isAtomic == isAtomic ensures b[j].index < n {
          assert b[j] in multiset(a);
        }
        if n != 0 {
          var i :| 0 <= i < |a| && a[i].isAtomic == isAtomic && a[i].index + 1 == n;
          assert a[i] in multiset(b);
          var j :| 0 <= j < |b| && b[j] == a[i];
        }
      }
      TightBoundUnique(b, isAtomic, n, m);
    }
    assert OfSlots(a).atomic == CountFor(OfSlots(a), true);
    assert OfSlots(a).nonAtomic == CountFor(OfSlots(a), false);
  }
}
