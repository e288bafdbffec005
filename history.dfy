/**
 * Histories of observations: the sequence of (state, check result) pairs an
 * observer has been shown. Both observer generations are specified as folds
 * over such a history.
 */
module History {
  /** How often `st` occurs in the history. */
  function Count<S(==), R>(h: seq<(S, R)>, st: S): nat {
    if |h| == 0 then 0
    else Count(h[..|h| - 1], st) + (if h[|h| - 1].0 == st then 1 else 0)
  }

  /** `st` occurs somewhere in the history. */
  predicate Seen<S(==), R>(h: seq<(S, R)>, st: S) {
    exists i :: 0 <= i < |h| && h[i].0 == st
  }

  /** The position of the first observation of `st`. */
  function First<S(==), R>(h: seq<(S, R)>, st: S): (i: nat)
    requires Seen(h, st)
    ensures i < |h| && h[i].0 == st
    ensures forall j :: 0 <= j < i ==> h[j].0 != st
  {
    var init := h[..|h| - 1];
    if Seen(init, st) then First(init, st) else |h| - 1
  }

  /** A state never observed has count 0. */
  lemma {:induction false} CountUnseen<S, R>(h: seq<(S, R)>, st: S)
    requires !Seen(h, st)
    ensures Count(h, st) == 0
  {
    if |h| > 0 {
      var init := h[..|h| - 1];
      forall i | 0 <= i < |init| ensures init[i].0 != st {
        assert init[i] == h[i];
      }
      CountUnseen(init, st);
    }
  }

  /**
   * Extending the history by one observation: `st` is seen iff it was seen
   * before or is the new state; its first position moves only if it is new.
   */
  lemma SeenSnoc<S, R>(h: seq<(S, R)>, st: S)
    requires |h| > 0
    ensures Seen(h, st) <==> Seen(h[..|h| - 1], st) || h[|h| - 1].0 == st
    ensures Seen(h[..|h| - 1], st) ==> First(h, st) == First(h[..|h| - 1], st)
    ensures !Seen(h[..|h| - 1], st) && h[|h| - 1].0 == st ==> First(h, st) == |h| - 1 && Count(h, st) == 1
  {
    var n := |h| - 1;
    var init := h[..n];
    if Seen(h, st) {
      var i :| 0 <= i < |h| && h[i].0 == st;
      if i < n {
        assert init[i] == h[i];
      }
    }
    if Seen(init, st) {
      var i :| 0 <= i < |init| && init[i].0 == st;
      assert h[i] == init[i];
    } else {
      CountUnseen(init, st);
    }
  }
}
