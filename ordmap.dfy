/**
 * `BTreeMap<String, V>` as an association list kept strictly sorted by key.
 * Sorted keys make the representation canonical (two maps with the same
 * bindings are the same sequence) and give the map's iteration order.
 */
module OrdMap {
  import opened Wrappers
  import opened Text

  /** Keys strictly increase, so every key occurs once. */
  predicate Sorted<V>(m: seq<(string, V)>) {
    forall i, j :: 0 <= i < j < |m| ==> StrLt(m[i].0, m[j].0)
  }

  /** `BTreeMap::get`. */
  function Get<V>(m: seq<(string, V)>, k: string): Option<V> {
    if m == [] then None
    else if m[0].0 == k then Some(m[0].1)
    else Get(m[1..], k)
  }

  /** The keys, in iteration order. */
  function Keys<V>(m: seq<(string, V)>): (ks: seq<string>)
    ensures |ks| == |m|
    ensures forall i :: 0 <= i < |m| ==> ks[i] == m[i].0
  {
    seq(|m|, i requires 0 <= i < |m| => m[i].0)
  }

  lemma {:induction false} GetSome<V>(m: seq<(string, V)>, k: string)
    requires Get(m, k).Some?
    ensures (k, Get(m, k).value) in m
  {
    if m[0].0 != k {
      GetSome(m[1..], k);
    }
  }

  lemma {:induction false} GetOfMember<V>(m: seq<(string, V)>, i: int)
    requires Sorted(m)
    requires 0 <= i < |m|
    ensures Get(m, m[i].0) == Some(m[i].1)
  {
    if i > 0 {
      StrLtIrreflexive(m[i].0);
      assert m[0].0 != m[i].0;
      GetOfMember(m[1..], i - 1);
    }
  }

  lemma {:induction false} GetNone<V>(m: seq<(string, V)>, k: string)
    requires forall e :: e in m ==> e.0 != k
    ensures Get(m, k) == None
  {
    if m != [] {
      GetNone(m[1..], k);
    }
  }

  /** `BTreeMap::insert`: binds `k` to `v`, replacing any previous binding. */
  function Insert<V>(m: seq<(string, V)>, k: string, v: V): (r: seq<(string, V)>)
    requires Sorted(m)
    ensures Sorted(r)
    ensures forall e :: e in r ==> e == (k, v) || e in m
    ensures Get(r, k) == Some(v)
    ensures forall k' :: k' != k ==> Get(r, k') == Get(m, k')
    ensures Get(m, k).None? ==> |r| == |m| + 1
    ensures Get(m, k).Some? ==> |r| == |m|
  {
    if m == [] then [(k, v)]
    else if m[0].0 == k then [(k, v)] + m[1..]
    else if StrLt(k, m[0].0) then
      assert Get(m, k) == None by {
        forall e | e in m ensures e.0 != k {
          var i :| 0 <= i < |m| && m[i] == e;
          if i > 0 {
            StrLtTransitive(k, m[0].0, m[i].0);
          }
          StrLtIrreflexive(k);
        }
        GetNone(m, k);
      }
      var r := [(k, v)] + m;
      assert Sorted(r) by {
        forall j | 1 < j < |r| ensures StrLt(k, r[j].0) {
          StrLtTransitive(k, m[0].0, r[j].0);
        }
      }
      r
    else
      var rest := Insert(m[1..], k, v);
      assert StrLt(m[0].0, k) by { StrLtTotal(m[0].0, k); }
      var r := [m[0]] + rest;
      assert r[1..] == rest;
      assert Sorted(r) by {
        forall j | 0 < j < |r| ensures StrLt(m[0].0, r[j].0) {
          if r[j] != (k, v) {
            assert r[j] == rest[j - 1] && rest[j - 1] in rest;
            assert r[j] in m[1..];
            var i :| 0 <= i < |m[1..]| && m[1..][i] == r[j];
            assert m[i + 1] == r[j];
          }
        }
      }
      r
  }

  /**
   * `Extend::extend` on a `BTreeMap`: the pairs are inserted in order, so a
   * later pair for a key overrides an earlier one.
   */
  function Extend<V>(m: seq<(string, V)>, pairs: seq<(string, V)>): (r: seq<(string, V)>)
    requires Sorted(m)
    ensures Sorted(r)
    ensures forall e :: e in r ==> e in m || e in pairs
    ensures |r| <= |m| + |pairs|
    decreases |pairs|
  {
    if pairs == [] then m
    else
      var p := pairs[|pairs| - 1];
      Insert(Extend(m, pairs[..|pairs| - 1]), p.0, p.1)
  }

  /** `FromIterator::from_iter` for a `BTreeMap` (`collect`). */
  function Collect<V>(pairs: seq<(string, V)>): (r: seq<(string, V)>)
    ensures Sorted(r)
    ensures |r| <= |pairs|
  {
    Extend([], pairs)
  }

  /** The value of the last pair with key `k`, if any. */
  function LastGet<V>(pairs: seq<(string, V)>, k: string): Option<V> {
    if pairs == [] then None
    else if pairs[|pairs| - 1].0 == k then Some(pairs[|pairs| - 1].1)
    else LastGet(pairs[..|pairs| - 1], k)
  }

  /** After `extend`, a key takes the last value the pairs give it, else keeps its old one. */
  lemma {:induction false} ExtendGet<V>(m: seq<(string, V)>, pairs: seq<(string, V)>, k: string)
    requires Sorted(m)
    ensures Get(Extend(m, pairs), k) == if LastGet(pairs, k).Some? then LastGet(pairs, k) else Get(m, k)
    decreases |pairs|
  {
    if pairs != [] {
      ExtendGet(m, pairs[..|pairs| - 1], k);
    }
  }

  /** Extending by `a + b` is extending by `a`, then by `b`. */
  lemma {:induction false} ExtendAppend<V>(m: seq<(string, V)>, a: seq<(string, V)>, b: seq<(string, V)>)
    requires Sorted(m)
    ensures Extend(m, a + b) == Extend(Extend(m, a), b)
    decreases |b|
  {
    if b == [] {
      assert a + b == a;
    } else {
      assert (a + b)[..|a + b| - 1] == a + b[..|b| - 1];
      ExtendAppend(m, a, b[..|b| - 1]);
    }
  }

  /** Two sorted maps with the same bindings are the same sequence. */
  lemma {:induction false} SortedExtensional<V>(m1: seq<(string, V)>, m2: seq<(string, V)>)
    requires Sorted(m1) && Sorted(m2)
    requires forall k :: Get(m1, k) == Get(m2, k)
    ensures m1 == m2
  {
    if m1 != [] && m2 != [] {
      var k1, k2 := m1[0].0, m2[0].0;
      GetOfMember(m1, 0);
      GetOfMember(m2, 0);
      GetSome(m2, k1);
      GetSome(m1, k2);
      if k1 != k2 {
        var i :| 0 <= i < |m2| && m2[i] == (k1, Get(m2, k1).value);
        var j :| 0 <= j < |m1| && m1[j] == (k2, Get(m1, k2).value);
        StrLtAsymmetric(k1, k2);
        assert false;
      }
      forall k ensures Get(m1[1..], k) == Get(m2[1..], k) {
        if k != k1 {
          assert Get(m1, k) == Get(m1[1..], k);
        } else {
          forall e | e in m1[1..] ensures e.0 != k {
            StrLtIrreflexive(k);
          }
          forall e | e in m2[1..] ensures e.0 != k {
            StrLtIrreflexive(k);
          }
          GetNone(m1[1..], k);
          GetNone(m2[1..], k);
        }
      }
      SortedExtensional(m1[1..], m2[1..]);
    } else if m1 != [] {
      GetOfMember(m1, 0);
    } else if m2 != [] {
      GetOfMember(m2, 0);
    }
  }

  /** Inserting a key above every present key appends it. */
  lemma {:induction false} InsertLast<V>(m: seq<(string, V)>, k: string, v: V)
    requires Sorted(m)
    requires forall i :: 0 <= i < |m| ==> StrLt(m[i].0, k)
    ensures Insert(m, k, v) == m + [(k, v)]
  {
    if m != [] {
      StrLtIrreflexive(k);
      StrLtAsymmetric(m[0].0, k);
      InsertLast(m[1..], k, v);
      assert [m[0]] + (m[1..] + [(k, v)]) == m + [(k, v)];
    }
  }

  /** Collecting pairs that are already sorted by key gives them back unchanged. */
  lemma {:induction false} ExtendSorted<V>(pairs: seq<(string, V)>)
    requires Sorted(pairs)
    ensures Extend([], pairs) == pairs
    decreases |pairs|
  {
    if pairs != [] {
      var init := pairs[..|pairs| - 1];
      ExtendSorted(init);
      InsertLast(init, pairs[|pairs| - 1].0, pairs[|pairs| - 1].1);
      assert init + [pairs[|pairs| - 1]] == pairs;
    }
  }

  /** `Iterator::zip`: pairs up the keys and values, stopping at the shorter list. */
  function Zip<V>(keys: seq<string>, vals: seq<V>): (r: seq<(string, V)>)
    ensures |r| == if |keys| < |vals| then |keys| else |vals|
    ensures forall i :: 0 <= i < |r| ==> r[i] == (keys[i], vals[i])
  {
    var n := if |keys| < |vals| then |keys| else |vals|;
    seq(n, i requires 0 <= i < n => (keys[i], vals[i]))
  }

  /** No pair with key `k` means no last value for it. */
  lemma {:induction false} LastGetNone<V>(pairs: seq<(string, V)>, k: string)
    requires forall i :: 0 <= i < |pairs| ==> pairs[i].0 != k
    ensures LastGet(pairs, k) == None
    decreases |pairs|
  {
    if pairs != [] {
      LastGetNone(pairs[..|pairs| - 1], k);
    }
  }

  /** Some pair with key `k` means some last value for it. */
  lemma {:induction false} LastGetPresent<V>(pairs: seq<(string, V)>, i: int)
    requires 0 <= i < |pairs|
    ensures LastGet(pairs, pairs[i].0).Some?
    decreases |pairs|
  {
    if i < |pairs| - 1 && pairs[|pairs| - 1].0 != pairs[i].0 {
      LastGetPresent(pairs[..|pairs| - 1], i);
    }
  }

  /** The last value for `k` is that of the last pair with key `k`. */
  lemma {:induction false} LastGetLatest<V>(pairs: seq<(string, V)>, i: int)
    requires 0 <= i < |pairs|
    requires forall j :: i < j < |pairs| ==> pairs[j].0 != pairs[i].0
    ensures LastGet(pairs, pairs[i].0) == Some(pairs[i].1)
    decreases |pairs|
  {
    if i < |pairs| - 1 {
      LastGetLatest(pairs[..|pairs| - 1], i);
    }
  }

  /**
   * `collect` keeps a key exactly when some pair has it, and binds it to the
   * value of the last such pair: later duplicates override earlier ones.
   */
  lemma CollectGet<V>(pairs: seq<(string, V)>)
    ensures forall k :: Get(Collect(pairs), k).Some? <==> exists i :: 0 <= i < |pairs| && pairs[i].0 == k
    ensures forall i :: 0 <= i < |pairs| && (forall j :: i < j < |pairs| ==> pairs[j].0 != pairs[i].0) ==>
              Get(Collect(pairs), pairs[i].0) == Some(pairs[i].1)
  {
    forall k ensures Get(Collect(pairs), k) == LastGet(pairs, k) {
      ExtendGet([], pairs, k);
    }
    forall k | forall i :: 0 <= i < |pairs| ==> pairs[i].0 != k
      ensures Get(Collect(pairs), k).None?
    {
      LastGetNone(pairs, k);
    }
    forall i | 0 <= i < |pairs| ensures Get(Collect(pairs), pairs[i].0).Some? {
      LastGetPresent(pairs, i);
    }
    forall i | 0 <= i < |pairs| && (forall j :: i < j < |pairs| ==> pairs[j].0 != pairs[i].0)
      ensures Get(Collect(pairs), pairs[i].0) == Some(pairs[i].1)
    {
      LastGetLatest(pairs, i);
    }
  }

  /** In a sorted map every key occurs once, so its last value is its only one. */
  lemma SortedLastGet<V>(m: seq<(string, V)>, k: string)
    requires Sorted(m)
    ensures LastGet(m, k) == Get(m, k)
  {
    if i :| 0 <= i < |m| && m[i].0 == k {
      forall j | i < j < |m| ensures m[j].0 != k {
        StrLtIrreflexive(k);
      }
      LastGetLatest(m, i);
      GetOfMember(m, i);
    } else {
      LastGetNone(m, k);
      GetNone(m, k);
    }
  }
}
