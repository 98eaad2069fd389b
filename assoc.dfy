/** A JavaScript `Map` with string keys, as a sequence of key/value pairs
    in insertion order.
    `set` on a present key replaces the value in place (the key keeps its
    position), `set` on a new key appends, `delete` removes the key and keeps
    the order of the rest; iteration visits the pairs front to back. */
module Assoc {
  import opened Wrappers

  function Keys<V>(m: seq<(string, V)>): (ks: seq<string>)
    ensures |ks| == |m|
    ensures forall i :: 0 <= i < |m| ==> ks[i] == m[i].0
  {
    seq(|m|, i requires 0 <= i < |m| => m[i].0)
  }

  /** No key occurs twice: the shape every JavaScript `Map` has. */
  predicate Valid<V>(m: seq<(string, V)>) {
    forall i, j :: 0 <= i < j < |m| ==> m[i].0 != m[j].0
  }

  /** `m.get(k)`. */
  function Get<V>(m: seq<(string, V)>, k: string): (r: Option<V>)
    ensures r.None? <==> k !in Keys(m)
    ensures r.Some? ==> exists i :: 0 <= i < |m| && m[i] == (k, r.value)
  {
    if m == [] then None
    else if m[0].0 == k then Some(m[0].1)
    else
      var r := Get(m[1..], k);
      assert Keys(m) == [m[0].0] + Keys(m[1..]);
      assert r.Some? ==> exists i :: 0 <= i < |m| - 1 && m[1..][i] == (k, r.value);
      r
  }

  /** `m.set(k, v)`. */
  function Put<V>(m: seq<(string, V)>, k: string, v: V): (r: seq<(string, V)>)
  {
    if m == [] then [(k, v)]
    else if m[0].0 == k then [(k, v)] + m[1..]
    else [m[0]] + Put(m[1..], k, v)
  }

  /** `m.delete(k)`. */
  function Remove<V>(m: seq<(string, V)>, k: string): (r: seq<(string, V)>)
  {
    if m == [] then []
    else if m[0].0 == k then Remove(m[1..], k)
    else [m[0]] + Remove(m[1..], k)
  }

  /** The first key in iteration order: `m.keys().next()`. */
  function FirstKey<V>(m: seq<(string, V)>): (r: Option<string>)
    ensures r.None? <==> m == []
    ensures r.Some? ==> r.value == Keys(m)[0]
  {
    if m == [] then None else Some(m[0].0)
  }

  /** After `set`, the key reads back the new value. */
  lemma {:induction false} GetPutSame<V>(m: seq<(string, V)>, k: string, v: V)
    ensures Get(Put(m, k, v), k) == Some(v)
  {
    if m != [] && m[0].0 != k {
      GetPutSame(m[1..], k, v);
    }
  }

  /** `set` leaves every other key's value alone. */
  lemma {:induction false} GetPutOther<V>(m: seq<(string, V)>, k: string, v: V, k': string)
    requires k' != k
    ensures Get(Put(m, k, v), k') == Get(m, k')
  {
    if m != [] && m[0].0 != k {
      GetPutOther(m[1..], k, v, k');
    }
  }

  /** `set` on a present key keeps the iteration order of the keys; on a new
      key it appends the key at the end. */
  lemma KeysPut<V>(m: seq<(string, V)>, k: string, v: V)
    ensures Keys(Put(m, k, v)) == if k in Keys(m) then Keys(m) else Keys(m) + [k]
  {
    if k in Keys(m) {
      PutPresentShape(m, k, v);
    } else {
      PutAbsent(m, k, v);
    }
  }

  /** `set` on a present key changes no key and no length. */
  lemma {:induction false} PutPresentShape<V>(m: seq<(string, V)>, k: string, v: V)
    requires k in Keys(m)
    ensures |Put(m, k, v)| == |m|
    ensures forall i :: 0 <= i < |m| ==> Put(m, k, v)[i].0 == m[i].0
  {
    if m[0].0 != k {
      assert Keys(m)[1..] == Keys(m[1..]);
      PutPresentShape(m[1..], k, v);
      var r := Put(m, k, v);
      assert r == [m[0]] + Put(m[1..], k, v);
      forall i | 0 <= i < |m| ensures r[i].0 == m[i].0 {
        if i > 0 {
          assert r[i] == Put(m[1..], k, v)[i - 1];
        }
      }
    }
  }

  /** `delete` makes the key absent and leaves every other key's value
      alone. */
  lemma {:induction false} GetRemove<V>(m: seq<(string, V)>, k: string, k': string)
    ensures Get(Remove(m, k), k') == if k' == k then None else Get(m, k')
  {
    if m != [] {
      GetRemove(m[1..], k, k');
    }
  }

  /** `delete` only drops entries. */
  lemma {:induction false} RemoveSub<V>(m: seq<(string, V)>, k: string)
    ensures forall e :: e in Remove(m, k) ==> e in m
  {
    if m != [] {
      RemoveSub(m[1..], k);
    }
  }

  /** `delete` keeps the remaining keys in their order. */
  lemma {:induction false} KeysRemove<V>(m: seq<(string, V)>, k: string)
    ensures Keys(Remove(m, k)) == KeysWithout(Keys(m), k)
  {
    if m != [] {
      KeysRemove(m[1..], k);
      assert Keys(m) == [m[0].0] + Keys(m[1..]);
      assert Keys(m)[1..] == Keys(m[1..]);
      if m[0].0 != k {
        assert Keys(Remove(m, k)) == [m[0].0] + Keys(Remove(m[1..], k));
      }
    }
  }

  /** `ks` with every occurrence of `k` dropped, order kept. */
  function KeysWithout(ks: seq<string>, k: string): (r: seq<string>)
    ensures k !in r
    ensures forall x :: x in r <==> x in ks && x != k
  {
    if ks == [] then []
    else if ks[0] == k then KeysWithout(ks[1..], k)
    else [ks[0]] + KeysWithout(ks[1..], k)
  }

  /** `delete` of an absent key changes nothing. */
  lemma {:induction false} RemoveAbsent<V>(m: seq<(string, V)>, k: string)
    requires k !in Keys(m)
    ensures Remove(m, k) == m
  {
    if m != [] {
      assert Keys(m)[1..] == Keys(m[1..]);
      RemoveAbsent(m[1..], k);
    }
  }

  /** `delete` distributes over a split of the pairs. */
  lemma {:induction false} RemoveAppend<V>(a: seq<(string, V)>, b: seq<(string, V)>, k: string)
    ensures Remove(a + b, k) == Remove(a, k) + Remove(b, k)
  {
    if a != [] {
      assert (a + b)[1..] == a[1..] + b;
      RemoveAppend(a[1..], b, k);
    } else {
      assert a + b == b;
    }
  }

  /** `set` and `delete` keep keys unique. */
  lemma {:induction false} PutValid<V>(m: seq<(string, V)>, k: string, v: V)
    requires Valid(m)
    ensures Valid(Put(m, k, v))
  {
    KeysPut(m, k, v);
    var r := Put(m, k, v);
    forall i, j | 0 <= i < j < |r| ensures r[i].0 != r[j].0 {
      assert Keys(r)[i] == r[i].0 && Keys(r)[j] == r[j].0;
      if k !in Keys(m) && j == |m| {
        assert Keys(m)[i] == Keys(r)[i];
      } else {
        assert Keys(m)[i] == m[i].0 && Keys(m)[j] == m[j].0;
      }
    }
  }

  lemma {:induction false} RemoveValid<V>(m: seq<(string, V)>, k: string)
    requires Valid(m)
    ensures Valid(Remove(m, k))
    ensures forall x :: x in Keys(Remove(m, k)) <==> x in Keys(m) && x != k
  {
    KeysRemove(m, k);
    if m != [] {
      RemoveValid(m[1..], k);
      if m[0].0 != k {
        var r := Remove(m, k);
        assert Keys(m)[1..] == Keys(m[1..]);
        assert m[0].0 !in Keys(m[1..]);
        assert r == [m[0]] + Remove(m[1..], k);
        forall j | 0 < j < |r| ensures r[0].0 != r[j].0 {
          assert r[j].0 == Keys(Remove(m[1..], k))[j - 1];
        }
      }
    }
  }
  /** `set` of a new key appends the pair. */
  lemma {:induction false} PutAbsent<V>(m: seq<(string, V)>, k: string, v: V)
    requires k !in Keys(m)
    ensures Put(m, k, v) == m + [(k, v)]
  {
    if m != [] {
      assert Keys(m)[1..] == Keys(m[1..]);
      PutAbsent(m[1..], k, v);
      assert m == [m[0]] + m[1..];
    }
  }

  /** Deleting the pair at a position whose key occurs nowhere else closes
      the gap and changes nothing else. */
  lemma RemoveMiddle<V>(pre: seq<(string, V)>, e: (string, V), post: seq<(string, V)>)
    requires e.0 !in Keys(pre) && e.0 !in Keys(post)
    ensures Remove(pre + [e] + post, e.0) == pre + post
  {
    assert pre + [e] + post == pre + ([e] + post);
    RemoveAppend(pre, [e] + post, e.0);
    RemoveAbsent(pre, e.0);
    assert ([e] + post)[1..] == post;
    RemoveAbsent(post, e.0);
  }

  /** Deleting a key that was just appended restores the map. */
  lemma RemoveLast<V>(m: seq<(string, V)>, e: (string, V))
    requires e.0 !in Keys(m)
    ensures Remove(m + [e], e.0) == m
  {
    RemoveAppend(m, [e], e.0);
    RemoveAbsent(m, e.0);
    assert [e][1..] == [];
  }

  /** Everything `set` guarantees, in one place. */
  lemma PutFacts<V>(m: seq<(string, V)>, k: string, v: V)
    requires Valid(m)
    ensures Valid(Put(m, k, v))
    ensures Keys(Put(m, k, v)) == if k in Keys(m) then Keys(m) else Keys(m) + [k]
    ensures Get(Put(m, k, v), k) == Some(v)
    ensures forall k' :: k' != k ==> Get(Put(m, k, v), k') == Get(m, k')
  {
    PutValid(m, k, v);
    KeysPut(m, k, v);
    GetPutSame(m, k, v);
    forall k' | k' != k ensures Get(Put(m, k, v), k') == Get(m, k') {
      GetPutOther(m, k, v, k');
    }
  }

  /** Everything `delete` guarantees, in one place. */
  lemma RemoveFacts<V>(m: seq<(string, V)>, k: string)
    requires Valid(m)
    ensures Valid(Remove(m, k))
    ensures forall x :: x in Keys(Remove(m, k)) <==> x in Keys(m) && x != k
    ensures forall k' :: Get(Remove(m, k), k') == if k' == k then None else Get(m, k')
  {
    RemoveValid(m, k);
    forall k' ensures Get(Remove(m, k), k') == if k' == k then None else Get(m, k') {
      GetRemove(m, k, k');
    }
  }

  /** A map whose keys are unique, with one more pair of a new key. */
  lemma SnocValid<V>(m: seq<(string, V)>, e: (string, V))
    requires Valid(m) && e.0 !in Keys(m)
    ensures Valid(m + [e])
  {
    forall i | 0 <= i < |m| ensures m[i].0 != e.0 { assert Keys(m)[i] == m[i].0; }
  }

  /** The pairs before the last of a map with unique keys. */
  lemma InitValid<V>(m: seq<(string, V)>)
    requires Valid(m) && m != []
    ensures Valid(m[..|m| - 1])
    ensures m[|m| - 1].0 !in Keys(m[..|m| - 1])
  {
    var init := m[..|m| - 1];
    forall i | 0 <= i < |init| ensures init[i].0 != m[|m| - 1].0 { assert init[i] == m[i]; }
  }

  /** Reading a key after one more pair has been appended. */
  lemma GetSnoc<V>(m: seq<(string, V)>, e: (string, V), k: string)
    requires e.0 !in Keys(m)
    ensures Get(m + [e], k) == if k == e.0 then Some(e.1) else Get(m, k)
  {
    PutAbsent(m, e.0, e.1);
    if k == e.0 {
      GetPutSame(m, e.0, e.1);
    } else {
      GetPutOther(m, e.0, e.1, k);
    }
  }

  /** A second `set` of the same key overrides the first, in place. */
  lemma {:induction false} PutPut<V>(m: seq<(string, V)>, k: string, v: V, w: V)
    ensures Put(Put(m, k, v), k, w) == Put(m, k, w)
  {
    if m != [] && m[0].0 != k {
      PutPut(m[1..], k, v, w);
    }
  }

  /** `delete` after `set` of the same key is `delete` alone. */
  lemma {:induction false} RemovePut<V>(m: seq<(string, V)>, k: string, v: V)
    ensures Remove(Put(m, k, v), k) == Remove(m, k)
  {
    if m != [] && m[0].0 != k {
      RemovePut(m[1..], k, v);
    }
  }
}
