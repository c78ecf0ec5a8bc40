/**
 * An insertion-ordered dictionary as a sequence of (key, value) pairs: the behaviour of a
 * Python `dict` and of a JavaScript object whose keys are not array indices. Assigning to
 * a present key replaces its value in place; assigning to a new key appends it.
 */
module Dict {
  import opened Wrappers

  function Keys<K, V>(d: seq<(K, V)>): (ks: seq<K>)
    ensures |ks| == |d| && forall i :: 0 <= i < |d| ==> ks[i] == d[i].0
  {
    if d == [] then [] else [d[0].0] + Keys(d[1..])
  }

  predicate DistinctKeys<K(==), V>(d: seq<(K, V)>) {
    forall i, j :: 0 <= i < j < |d| ==> d[i].0 != d[j].0
  }

  /** No two elements of `xs` are equal. */
  predicate Distinct<T(==)>(xs: seq<T>) {
    forall i, j :: 0 <= i < j < |xs| ==> xs[i] != xs[j]
  }

  /** `d[k]` in Python, `d[k]` in JavaScript: the value of the first entry with key `k`. */
  function Get<K(==), V>(d: seq<(K, V)>, k: K): (r: Option<V>)
    ensures r.None? <==> k !in Keys(d)
    ensures r.Some? ==> (k, r.value) in d
  {
    if d == [] then None else if d[0].0 == k then Some(d[0].1) else Get(d[1..], k)
  }

  /** `d[k] = v`. */
  function Put<K(==), V>(d: seq<(K, V)>, k: K, v: V): (r: seq<(K, V)>)
    ensures Get(r, k) == Some(v)
  {
    if d == [] then [(k, v)]
    else if d[0].0 == k then [(k, v)] + d[1..]
    else [d[0]] + Put(d[1..], k, v)
  }

  /** `d[k] = v` keeps the keys and their order, and appends `k` when it is new. */
  lemma {:induction false} PutKeys<K, V>(d: seq<(K, V)>, k: K, v: V)
    ensures Keys(Put(d, k, v)) == if k in Keys(d) then Keys(d) else Keys(d) + [k]
  {
    if d != [] {
      KeysTail(d);
      if d[0].0 == k {
        KeysCons((k, v), d[1..]);
      } else {
        PutKeys(d[1..], k, v);
        KeysCons(d[0], Put(d[1..], k, v));
        assert Put(d, k, v) == [d[0]] + Put(d[1..], k, v);
        assert (k in Keys(d)) == (k in Keys(d[1..]));
        if k !in Keys(d[1..]) {
          assert [d[0].0] + (Keys(d[1..]) + [k]) == ([d[0].0] + Keys(d[1..])) + [k];
        }
      }
    }
  }

  /** `d[k] = v` leaves the value of every other key as it was. */
  lemma {:induction false} PutKeepsOthers<K, V>(d: seq<(K, V)>, k: K, v: V, other: K)
    requires other != k
    ensures Get(Put(d, k, v), other) == Get(d, other)
  {
    if d != [] && d[0].0 != k {
      PutKeepsOthers(d[1..], k, v, other);
      var r := Put(d, k, v);
      assert r[0] == d[0] && r[1..] == Put(d[1..], k, v);
    } else if d != [] {
      var r := Put(d, k, v);
      assert r[1..] == d[1..];
    }
  }

  /** Every entry after `d[k] = v` is an entry of `d` or the new one. */
  lemma {:induction false} PutEntries<K, V>(d: seq<(K, V)>, k: K, v: V)
    ensures forall e :: e in Put(d, k, v) ==> e in d || e == (k, v)
  {
    if d != [] && d[0].0 != k {
      PutEntries(d[1..], k, v);
      assert Put(d, k, v) == [d[0]] + Put(d[1..], k, v);
    }
  }

  lemma PutKeepsDistinct<K, V>(d: seq<(K, V)>, k: K, v: V)
    requires DistinctKeys(d)
    ensures DistinctKeys(Put(d, k, v))
  {
    var r := Put(d, k, v);
    PutKeys(d, k, v);
    var kd, kr := Keys(d), Keys(r);
    forall i, j | 0 <= i < j < |r| ensures r[i].0 != r[j].0 {
      assert r[i].0 == kr[i] && r[j].0 == kr[j];
      if j < |d| {
        assert kr[i] == kd[i] == d[i].0 && kr[j] == kd[j] == d[j].0;
      } else {
        assert kr[i] == kd[i] && kr[j] == k && k !in kd;
      }
    }
  }

  /** Assigning a key that is not yet present appends the entry at the end. */
  lemma {:induction false} PutNew<K, V>(d: seq<(K, V)>, k: K, v: V)
    requires k !in Keys(d)
    ensures Put(d, k, v) == d + [(k, v)]
  {
    if d != [] {
      KeysTail(d);
      PutNew(d[1..], k, v);
      AppendAssoc(d, [(k, v)]);
    }
  }

  lemma KeysTail<K, V>(d: seq<(K, V)>)
    requires d != []
    ensures Keys(d) == [d[0].0] + Keys(d[1..])
  {
  }

  lemma KeysCons<K, V>(x: (K, V), d: seq<(K, V)>)
    ensures Keys([x] + d) == [x.0] + Keys(d)
  {
    assert ([x] + d)[1..] == d;
  }

  lemma KeysAppend<K, V>(a: seq<(K, V)>, b: seq<(K, V)>)
    ensures Keys(a + b) == Keys(a) + Keys(b)
  {
    var l, r := Keys(a + b), Keys(a) + Keys(b);
    forall i | 0 <= i < |l| ensures l[i] == r[i] {
      assert (a + b)[i] == if i < |a| then a[i] else b[i - |a|];
    }
  }

  lemma AppendAssoc<T>(d: seq<T>, e: seq<T>)
    requires d != []
    ensures [d[0]] + (d[1..] + e) == d + e
  {
    assert [d[0]] + d[1..] == d;
  }

  /** Looking a key up in two dicts laid end to end finds it in the first when it is there. */
  lemma {:induction false} GetAppend<K, V>(a: seq<(K, V)>, b: seq<(K, V)>, k: K)
    ensures Get(a + b, k) == if k in Keys(a) then Get(a, k) else Get(b, k)
  {
    if a != [] {
      KeysTail(a);
      assert (a + b)[1..] == a[1..] + b;
      GetAppend(a[1..], b, k);
    } else {
      assert a + b == b;
    }
  }

  /** The same keys in the same order, each value passed through `f`. */
  function MapValues<K, V, W>(d: seq<(K, V)>, f: V -> W): (r: seq<(K, W)>)
    ensures |r| == |d|
    ensures forall i :: 0 <= i < |d| ==> r[i] == (d[i].0, f(d[i].1))
  {
    if d == [] then [] else [(d[0].0, f(d[0].1))] + MapValues(d[1..], f)
  }

  /** Mapping the values of `d` with one more entry maps that entry too, at the end. */
  lemma MapValuesSnoc<K, V, W>(d: seq<(K, V)>, f: V -> W, x: (K, V))
    ensures MapValues(d + [x], f) == MapValues(d, f) + [(x.0, f(x.1))]
  {
    var r, e := MapValues(d + [x], f), MapValues(d, f) + [(x.0, f(x.1))];
    forall i | 0 <= i < |r| ensures r[i] == e[i] {
      assert (d + [x])[i] == if i < |d| then d[i] else x;
    }
  }

  /**
   * Assigning the next entry of `d`, mapped, to the mapped first `m` entries: with distinct
   * keys the key is new, so the mapped first `m + 1` entries result.
   */
  lemma PutNext<K, V, W>(d: seq<(K, V)>, f: V -> W, m: nat)
    requires DistinctKeys(d) && m < |d|
    ensures Put(MapValues(d[..m], f), d[m].0, f(d[m].1)) == MapValues(d[..m + 1], f)
  {
    var before := MapValues(d[..m], f);
    assert d[m].0 !in Keys(before) by {
      MapValuesKeys(d[..m], f);
      NextKeyIsNew(d, m);
    }
    PutNew(before, d[m].0, f(d[m].1));
    assert MapValues(d[..m + 1], f) == before + [(d[m].0, f(d[m].1))] by {
      assert d[..m + 1] == d[..m] + [d[m]];
      MapValuesSnoc(d[..m], f, d[m]);
    }
  }

  /** With distinct keys, the key at position `m` is none of the keys before it. */
  lemma NextKeyIsNew<K, V>(d: seq<(K, V)>, m: nat)
    requires DistinctKeys(d) && m < |d|
    ensures d[m].0 !in Keys(d[..m])
  {
    forall j | 0 <= j < m ensures Keys(d[..m])[j] != d[m].0 {
      assert d[..m][j] == d[j];
    }
  }

  /** The dict `for k, v in d: r[k] = f(v)` builds, entry after entry. */
  function PutAll<K(==), V, W>(d: seq<(K, V)>, f: V -> W): (r: seq<(K, W)>)
    ensures r == [] <==> d == []
  {
    if d == [] then [] else Put(PutAll(d[..|d| - 1], f), d[|d| - 1].0, f(d[|d| - 1].1))
  }

  /** One more entry of `d` is one more assignment. */
  lemma PutAllStep<K, V, W>(d: seq<(K, V)>, f: V -> W, j: nat)
    requires j < |d|
    ensures PutAll(d[..j + 1], f) == Put(PutAll(d[..j], f), d[j].0, f(d[j].1))
  {
    assert d[..j + 1][..j] == d[..j];
  }

  /** With distinct keys, assigning entry after entry keeps every key once, in order. */
  lemma {:induction false} PutAllDistinct<K, V, W>(d: seq<(K, V)>, f: V -> W)
    requires DistinctKeys(d)
    ensures PutAll(d, f) == MapValues(d, f)
  {
    if d != [] {
      var n := |d| - 1;
      assert DistinctKeys(d[..n]);
      PutAllDistinct(d[..n], f);
      PutNext(d, f, n);
      assert d[..n + 1] == d;
    }
  }

  lemma MapValuesKeys<K, V, W>(d: seq<(K, V)>, f: V -> W)
    ensures Keys(MapValues(d, f)) == Keys(d)
  {
    var r := MapValues(d, f);
    assert forall i :: 0 <= i < |d| ==> Keys(r)[i] == Keys(d)[i];
  }

  /** Looking a key up after mapping the values finds the mapped value. */
  lemma {:induction false} MapValuesGet<K, V, W>(d: seq<(K, V)>, f: V -> W, k: K)
    ensures Get(MapValues(d, f), k) == if Get(d, k).Some? then Some(f(Get(d, k).value)) else None
  {
    if d != [] {
      var r := MapValues(d, f);
      assert r[1..] == MapValues(d[1..], f);
      MapValuesGet(d[1..], f, k);
    }
  }

  /** In a dict with distinct keys, the key at position `i` finds the value at position `i`. */
  lemma {:induction false} GetDistinct<K, V>(d: seq<(K, V)>, i: nat)
    requires DistinctKeys(d) && i < |d|
    ensures Get(d, d[i].0) == Some(d[i].1)
  {
    if i > 0 {
      assert DistinctKeys(d[1..]) by {
        assert forall a :: 0 <= a < |d| - 1 ==> d[1..][a] == d[a + 1];
      }
      assert d[0].0 != d[i].0;
      GetDistinct(d[1..], i - 1);
    }
  }
}
