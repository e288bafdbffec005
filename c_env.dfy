/**
 * The C environment of src/api/c/env.c (src/testapi/c/env.c is the same
 * text): a heap-allocated `struct env` holding a count and an array for the
 * atomic and for the plain 32-bit integers. `calloc` and `free` act on a
 * `Heap` whose `live` set is the allocated blocks; whether each `calloc`
 * succeeds is an input.
 */
module CEnv {
  import opened Prim

  /** The allocator: the set of blocks currently allocated. */
  class Heap {
    ghost var live: set<object>

    constructor ()
      ensures live == {}
    {
      live := {};
    }

    /** `calloc(n, sizeof(int32_t))`: a zero-filled block, or NULL when `ok` is false. */
    method CallocI32(n: nat, ok: bool) returns (a: array?<i32>)
      modifies this
      ensures ok ==> a != null && fresh(a) && a.Length == n && a[..] == seq(n, _ => 0 as i32)
      ensures ok ==> live == old(live) + {a}
      ensures !ok ==> a == null && live == old(live)
    {
      if ok {
        a := new i32[n](_ => 0);
        live := live + {a};
      } else {
        a := null;
      }
    }

    /** `calloc(1, sizeof(struct env))`: every field zero or NULL, or NULL when `ok` is false. */
    method CallocEnv(ok: bool) returns (e: EnvStruct?)
      modifies this
      ensures ok ==> e != null && fresh(e) && e.natomicInt32 == 0 && e.atomicInt32 == null
                     && e.nint32 == 0 && e.int32 == null
      ensures ok ==> live == old(live) + {e}
      ensures !ok ==> e == null && live == old(live)
    {
      if ok {
        e := new EnvStruct();
        live := live + {e};
      } else {
        e := null;
      }
    }

    /** `free`. */
    method Free(o: object)
      requires o in live
      modifies this
      ensures live == old(live) - {o}
    {
      live := live - {o};
    }
  }

  /** `struct env`. */
  class EnvStruct {
    var natomicInt32: nat
    var atomicInt32: array?<i32>
    var nint32: nat
    var int32: array?<i32>

    constructor ()
      ensures natomicInt32 == 0 && atomicInt32 == null && nint32 == 0 && int32 == null
    {
      natomicInt32, atomicInt32, nint32, int32 := 0, null, 0, null;
    }

    /** What `alloc_env` establishes: both arrays allocated, distinct and of the stored lengths. */
    ghost predicate Valid()
      reads this
    {
      atomicInt32 != null && int32 != null && atomicInt32 != int32
      && atomicInt32.Length == natomicInt32 && int32.Length == nint32
    }

    /** The blocks owned by this environment. */
    ghost function Blocks(): set<object>
      reads this
    {
      {this} + (if atomicInt32 != null then {atomicInt32} else {})
      + (if int32 != null then {int32} else {})
    }
  }

  /**
   * `alloc_env`: on success, a fresh environment with the two counts stored
   * and both arrays zero-filled; if any of the three allocations fails, NULL,
   * with everything allocated so far freed again.
   */
  method AllocEnv(heap: Heap, natomicInt32: nat, nint32: nat, okEnv: bool, okAtomic: bool, okInt: bool)
    returns (e: EnvStruct?)
    modifies heap
    ensures e == null <==> !(okEnv && okAtomic && okInt)
    ensures e == null ==> heap.live == old(heap.live)
    ensures e != null ==> fresh(e) && e.Valid() && fresh(e.atomicInt32) && fresh(e.int32)
    ensures e != null ==> e.natomicInt32 == natomicInt32 && e.nint32 == nint32
    ensures e != null ==> e.atomicInt32[..] == seq(natomicInt32, _ => 0 as i32)
    ensures e != null ==> e.int32[..] == seq(nint32, _ => 0 as i32)
    ensures e != null ==> heap.live == old(heap.live) + e.Blocks()
  {
    e := heap.CallocEnv(okEnv);
    if e == null {
      return null;
    }

    e.natomicInt32 := natomicInt32;
    var a := heap.CallocI32(natomicInt32, okAtomic);
    e.atomicInt32 := a;
    if e.atomicInt32 == null {
      FreeEnv(heap, e);
      return null;
    }

    e.nint32 := nint32;
    var n := heap.CallocI32(nint32, okInt);
    e.int32 := n;
    if e.int32 == null {
      FreeEnv(heap, e);
      return null;
    }

    return e;
  }

  /** `free_env`: NULL is ignored; otherwise each non-NULL array, then the struct, is freed. */
  method FreeEnv(heap: Heap, e: EnvStruct?)
    requires e != null ==> e.Blocks() <= heap.live
    requires e != null ==> e.atomicInt32 == null || e.atomicInt32 != e.int32
    modifies heap
    ensures e == null ==> heap.live == old(heap.live)
    ensures e != null ==> heap.live == old(heap.live) - e.Blocks()
  {
    if e == null {
      return;
    }
    if e.atomicInt32 != null {
      heap.Free(e.atomicInt32);
    }
    if e.int32 != null {
      heap.Free(e.int32);
    }
    heap.Free(e);
  }

  // ---------------------------------------------------------------------
  // Accessors, with the guard as written: `if (count < c) return ...;`

  /** The accessors' guard as written: it rejects `c` only when `count < c`. */
  predicate GuardRejects(count: nat, c: nat) {
    count < c
  }

  /**
   * The guard lets `c == count` through, and that index is one past the end
   * of an array of `count` elements.
   */
  lemma GuardAdmitsOnePastEnd(count: nat)
    ensures !GuardRejects(count, count)
    ensures exists c: nat :: !GuardRejects(count, c) && !(c < count)
  {
    assert !GuardRejects(count, count) && !(count < count);
  }

  /** A load through the guard as written; defined only where it stays in bounds. */
  function Load(vals: seq<i32>, c: nat): (v: i32)
    requires c != |vals|
    ensures c < |vals| ==> v == vals[c]
    ensures |vals| < c ==> v == 0
  {
    if GuardRejects(|vals|, c) then 0 else vals[c]
  }

  /** A store through the guard as written; defined only where it stays in bounds. */
  function Store(vals: seq<i32>, c: nat, v: i32): (r: seq<i32>)
    requires c != |vals|
    ensures |r| == |vals|
    ensures c < |vals| ==> r[c] == v
    ensures forall i :: 0 <= i < |vals| && i != c ==> r[i] == vals[i]
  {
    if GuardRejects(|vals|, c) then vals else vals[c := v]
  }

  /** For an in-range index, a store then a load at that index gives the stored value. */
  lemma LoadStore(vals: seq<i32>, c: nat, v: i32)
    requires c < |vals|
    ensures Load(Store(vals, c, v), c) == v
  {
  }

  /** A store leaves every other in-bounds index's load unchanged. */
  lemma LoadStoreOther(vals: seq<i32>, c: nat, d: nat, v: i32)
    requires c != |vals| && d != |vals| && c != d
    ensures Load(Store(vals, c, v), d) == Load(vals, d)
  {
  }

  /** `get_int32`. */
  function GetInt32(e: EnvStruct, c: nat): (v: i32)
    requires e.Valid()
    requires c != e.nint32
    reads e, e.int32
    ensures v == Load(e.int32[..], c)
  {
    if GuardRejects(e.nint32, c) then 0 else e.int32[c]
  }

  /** `get_atomic_int32`. */
  function GetAtomicInt32(e: EnvStruct, c: nat): (v: i32)
    requires e.Valid()
    requires c != e.natomicInt32
    reads e, e.atomicInt32
    ensures v == Load(e.atomicInt32[..], c)
  {
    if GuardRejects(e.natomicInt32, c) then 0 else e.atomicInt32[c]
  }

  /** `set_int32`: only the plain array changes, and only at `c`. */
  method SetInt32(e: EnvStruct, c: nat, v: i32)
    requires e.Valid()
    requires c != e.nint32
    modifies e.int32
    ensures e.int32[..] == Store(old(e.int32[..]), c, v)
  {
    if GuardRejects(e.nint32, c) {
      return;
    }
    e.int32[c] := v;
  }

  /** `set_atomic_int32`: only the atomic array changes, and only at `c`. */
  method SetAtomicInt32(e: EnvStruct, c: nat, v: i32)
    requires e.Valid()
    requires c != e.natomicInt32
    modifies e.atomicInt32
    ensures e.atomicInt32[..] == Store(old(e.atomicInt32[..]), c, v)
  {
    if GuardRejects(e.natomicInt32, c) {
      return;
    }
    e.atomicInt32[c] := v;
  }

  // ---------------------------------------------------------------------
  // Accessors with the guard corrected to `count <= c`

  /** The corrected guard rejects exactly the indices outside the array. */
  predicate CheckedGuardRejects(count: nat, c: nat) {
    count <= c
  }

  /** A load through the corrected guard: total, 0 for every out-of-range index. */
  function LoadChecked(vals: seq<i32>, c: nat): (v: i32)
    ensures c < |vals| ==> v == vals[c]
    ensures |vals| <= c ==> v == 0
  {
    if CheckedGuardRejects(|vals|, c) then 0 else vals[c]
  }

  /** A store through the corrected guard: total, ignoring every out-of-range index. */
  function StoreChecked(vals: seq<i32>, c: nat, v: i32): (r: seq<i32>)
    ensures |vals| <= c ==> r == vals
    ensures |r| == |vals|
    ensures c < |vals| ==> r[c] == v
    ensures forall i :: 0 <= i < |vals| && i != c ==> r[i] == vals[i]
  {
    if CheckedGuardRejects(|vals|, c) then vals else vals[c := v]
  }

  /** The corrected accessors agree with the written ones wherever those are defined. */
  lemma CheckedAgrees(vals: seq<i32>, c: nat, v: i32)
    requires c != |vals|
    ensures LoadChecked(vals, c) == Load(vals, c)
    ensures StoreChecked(vals, c, v) == Store(vals, c, v)
  {
  }

  /** `get_int32` with the corrected guard. */
  function GetInt32Checked(e: EnvStruct, c: nat): (v: i32)
    requires e.Valid()
    reads e, e.int32
    ensures v == LoadChecked(e.int32[..], c)
  {
    if CheckedGuardRejects(e.nint32, c) then 0 else e.int32[c]
  }

  /** `get_atomic_int32` with the corrected guard. */
  function GetAtomicInt32Checked(e: EnvStruct, c: nat): (v: i32)
    requires e.Valid()
    reads e, e.atomicInt32
    ensures v == LoadChecked(e.atomicInt32[..], c)
  {
    if CheckedGuardRejects(e.natomicInt32, c) then 0 else e.atomicInt32[c]
  }

  /** `set_int32` with the corrected guard. */
  method SetInt32Checked(e: EnvStruct, c: nat, v: i32)
    requires e.Valid()
    modifies e.int32
    ensures e.int32[..] == StoreChecked(old(e.int32[..]), c, v)
  {
    if CheckedGuardRejects(e.nint32, c) {
      return;
    }
    e.int32[c] := v;
  }

  /** `set_atomic_int32` with the corrected guard. */
  method SetAtomicInt32Checked(e: EnvStruct, c: nat, v: i32)
    requires e.Valid()
    modifies e.atomicInt32
    ensures e.atomicInt32[..] == StoreChecked(old(e.atomicInt32[..]), c, v)
  {
    if CheckedGuardRejects(e.natomicInt32, c) {
      return;
    }
    e.atomicInt32[c] := v;
  }

  /** A fresh environment reads 0 at every index through the corrected getters. */
  method AllocThenRead(natomicInt32: nat, nint32: nat, c: nat) returns (atomicV: i32, plainV: i32)
    ensures atomicV == 0 && plainV == 0
  {
    var heap := new Heap();
    var e := AllocEnv(heap, natomicInt32, nint32, true, true, true);
    atomicV := GetAtomicInt32Checked(e, c);
    plainV := GetInt32Checked(e, c);
    FreeEnv(heap, e);
  }
}
