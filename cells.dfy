/**
 * Shared mutable cells of the thread automata: the atomic halt-state byte
 * every automaton of a set points to (`Arc<AtomicU8>`), and the shared
 * tester state (`Arc<UnsafeCell<S>>`). Sharing is object identity; the
 * memory orderings of the atomic byte are not modelled.
 */
module Cells {
  import opened Prim

  /** `Arc<AtomicU8>`: the halt-state byte, 0 when no halt is requested. */
  class Flag {
    var state: u8

    /** `Arc::new(AtomicU8::new(0))`. */
    constructor ()
      ensures state == 0
    {
      state := 0;
    }
  }

  /** `Arc<UnsafeCell<S>>`: a value shared by reference. */
  class Cell<S> {
    var contents: S

    /** `Arc::new(UnsafeCell::new(v))`. */
    constructor (v: S)
      ensures contents == v
    {
      contents := v;
    }
  }
}
