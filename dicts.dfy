/**
 * Python dictionaries keep their keys in insertion order, and several operations of the
 * benchmark depend on that order (argmax tie-breaks, the key order of a merged file).
 * A dictionary is therefore modelled as an association list of (key, value) pairs in
 * insertion order; a dictionary built by Python has distinct keys.
 */
module Dicts {
  import opened Wrappers

  type Dict<V> = seq<(string, V)>

  /** The keys, in iteration order (`list(d.keys())`). */
  function Keys<V>(d: Dict<V>): (ks: seq<string>)
    ensures |ks| == |d|
    ensures forall i :: 0 <= i < |d| ==> ks[i] == d[i].0
  {
    if d == [] then [] else [d[0].0] + Keys(d[1..])
  }

  /** The keys of a dictionary extended by one entry. */
  lemma KeysAppend<V>(d: Dict<V>, x: (string, V))
    ensures Keys(d + [x]) == Keys(d) + [x.0]
  {
    assert forall i :: 0 <= i < |d| ==> (d + [x])[i] == d[i];
  }

  /** The values, in iteration order (`list(d.values())`). */
  function Values<V>(d: Dict<V>): (vs: seq<V>)
    ensures |vs| == |d|
    ensures forall i :: 0 <= i < |d| ==> vs[i] == d[i].1
  {
    if d == [] then [] else [d[0].1] + Values(d[1..])
  }

  /** No key occurs twice: true of every dictionary Python builds. */
  predicate DistinctKeys<V>(d: Dict<V>) {
    forall i, j :: 0 <= i < j < |d| ==> d[i].0 != d[j].0
  }

  /** Dropping the last entry of a dictionary with distinct keys leaves one whose keys omit that entry's key. */
  lemma DistinctInit<V>(d: Dict<V>)
    requires DistinctKeys(d) && d != []
    ensures DistinctKeys(d[..|d| - 1])
    ensures d[|d| - 1].0 !in Keys(d[..|d| - 1])
  {
    var p := d[..|d| - 1];
    forall i, j | 0 <= i < j < |p| ensures p[i].0 != p[j].0 {
      assert p[i] == d[i] && p[j] == d[j];
    }
    forall j | 0 <= j < |p| ensures Keys(p)[j] != d[|d| - 1].0 {
      assert p[j] == d[j];
    }
  }

  /** `d.get(k)`: the value stored under `k`, or `None` when `k` is missing. */
  function Get<V>(d: Dict<V>, k: string): (r: Option<V>)
    ensures r.Some? <==> k in Keys(d)
    ensures r.Some? ==> exists i :: 0 <= i < |d| && d[i] == (k, r.value)
  {
    if d == [] then None
    else if d[0].0 == k then Some(d[0].1)
    else Get(d[1..], k)
  }

  /** With distinct keys, the value `Get` finds is the one stored at the key's position. */
  lemma GetAt<V>(d: Dict<V>, i: nat)
    requires DistinctKeys(d) && i < |d|
    ensures Get(d, d[i].0) == Some(d[i].1)
  {
    var r := Get(d, d[i].0);
    assert d[i].0 in Keys(d);
    var j :| 0 <= j < |d| && d[j] == (d[i].0, r.value);
    assert j == i;
  }

  /**
   * `d[k] = v`: an existing key keeps its position and gets the new value; a new key is
   * appended at the end.
   */
  function Put<V>(d: Dict<V>, k: string, v: V): (r: Dict<V>)
    ensures k in Keys(d) ==> Keys(r) == Keys(d)
    ensures k !in Keys(d) ==> Keys(r) == Keys(d) + [k]
  {
    if d == [] then [(k, v)]
    else if d[0].0 == k then [(k, v)] + d[1..]
    else [d[0]] + Put(d[1..], k, v)
  }

  /** Every entry after `d[k] = v` is an old entry or the new one. */
  lemma {:induction false} PutEntries<V>(d: Dict<V>, k: string, v: V)
    ensures forall x :: x in Put(d, k, v) ==> x in d || x == (k, v)
  {
    if d != [] && d[0].0 != k {
      PutEntries(d[1..], k, v);
      assert forall x :: x in d[1..] ==> x in d;
    }
  }

  /** Reading back after `d[k] = v`: `k` now holds `v`, every other key what it held. */
  lemma {:induction false} PutGet<V>(d: Dict<V>, k: string, v: V, j: string)
    ensures Get(Put(d, k, v), j) == if j == k then Some(v) else Get(d, j)
  {
    if d != [] && d[0].0 != k {
      PutGet(d[1..], k, v, j);
    }
  }

  lemma PutGetSame<V>(d: Dict<V>, k: string, v: V)
    ensures Get(Put(d, k, v), k) == Some(v)
  {
    PutGet(d, k, v, k);
  }

  lemma PutGetOther<V>(d: Dict<V>, k: string, v: V, j: string)
    requires j != k
    ensures Get(Put(d, k, v), j) == Get(d, j)
  {
    PutGet(d, k, v, j);
  }

  /** Storing twice under the same key is storing the second value once. */
  lemma {:induction false} PutTwice<V>(d: Dict<V>, k: string, v: V, w: V)
    ensures Put(Put(d, k, v), k, w) == Put(d, k, w)
  {
    if d != [] && d[0].0 != k {
      PutTwice(d[1..], k, v, w);
    }
  }

  /** `d[k] = v` keeps the keys distinct. */
  lemma {:induction false} PutDistinct<V>(d: Dict<V>, k: string, v: V)
    requires DistinctKeys(d)
    ensures DistinctKeys(Put(d, k, v))
  {
    var r := Put(d, k, v);
    if k in Keys(d) {
      assert Keys(r) == Keys(d);
    } else {
      assert Keys(r) == Keys(d) + [k];
    }
    forall i, j | 0 <= i < j < |r| ensures r[i].0 != r[j].0 {
      assert Keys(r)[i] == r[i].0 && Keys(r)[j] == r[j].0;
    }
  }

  /** The dictionary built by storing `f(v)` under each key of `e` in turn, starting empty. */
  function PutEach<A, B>(e: seq<(string, A)>, f: A -> B): Dict<B> {
    if e == [] then [] else Put(PutEach(e[..|e| - 1], f), e[|e| - 1].0, f(e[|e| - 1].1))
  }

  /** With distinct keys, the keys come out as given, in order. */
  lemma {:induction false} PutEachKeys<A, B>(e: seq<(string, A)>, f: A -> B)
    requires DistinctKeys(e)
    ensures Keys(PutEach(e, f)) == Keys(e)
  {
    if e != [] {
      var p, x := e[..|e| - 1], e[|e| - 1];
      DistinctInit(e);
      PutEachKeys(p, f);
      assert e == p + [x];
      KeysAppend(p, x);
    }
  }

  /** With distinct keys, each key maps to `f` of its own value. */
  lemma {:induction false} PutEachGet<A, B>(e: seq<(string, A)>, f: A -> B, i: nat)
    requires DistinctKeys(e) && i < |e|
    ensures Get(PutEach(e, f), e[i].0) == Some(f(e[i].1))
  {
    var p, x := e[..|e| - 1], e[|e| - 1];
    var m := PutEach(p, f);
    assert PutEach(e, f) == Put(m, x.0, f(x.1));
    if i < |p| {
      assert e[i] == p[i] && e[i].0 != x.0;
      DistinctInit(e);
      PutEachGet(p, f, i);
      PutGetOther(m, x.0, f(x.1), e[i].0);
    } else {
      PutGetSame(m, x.0, f(x.1));
    }
  }

  /** The dictionary after `for k, v in e.items(): d[k] = v`. */
  function PutAll<V>(d: Dict<V>, e: Dict<V>): Dict<V>
  {
    if e == [] then d else Put(PutAll(d, e[..|e| - 1]), e[|e| - 1].0, e[|e| - 1].1)
  }

  /** Looking up a key after appending one more entry to a dictionary with distinct keys. */
  lemma GetAppend<V>(e: Dict<V>, x: (string, V), k: string)
    requires DistinctKeys(e + [x])
    ensures Get(e + [x], k) == if k in Keys(e) then Get(e, k) else if k == x.0 then Some(x.1) else None
  {
    var ex := e + [x];
    if k in Keys(e) {
      var i :| 0 <= i < |e| && Keys(e)[i] == k;
      assert DistinctKeys(e) by {
        forall a, b | 0 <= a < b < |e| ensures e[a].0 != e[b].0 {
          assert ex[a] == e[a] && ex[b] == e[b];
        }
      }
      GetAt(e, i);
      assert ex[i] == e[i];
      GetAt(ex, i);
    } else if k == x.0 {
      assert ex[|e|] == x;
      GetAt(ex, |e|);
    } else {
      assert k !in Keys(ex);
    }
  }

  /** After `PutAll`, a key of `e` holds its value from `e`; any other key is untouched. */
  lemma {:induction false} PutAllGet<V>(d: Dict<V>, e: Dict<V>, k: string)
    requires DistinctKeys(e)
    ensures Get(PutAll(d, e), k) == if k in Keys(e) then Get(e, k) else Get(d, k)
    decreases |e|
  {
    if e != [] {
      var e', x := e[..|e| - 1], e[|e| - 1];
      assert e == e' + [x];
      KeysAppend(e', x);
      DistinctInit(e);
      PutAllGet(d, e', k);
      GetAppend(e', x, k);
      if k == x.0 {
        PutGetSame(PutAll(d, e'), x.0, x.1);
      } else {
        PutGetOther(PutAll(d, e'), x.0, x.1, k);
      }
    }
  }

  /**
   * After `PutAll`, the keys of `d` come first in their old order, followed by keys of `e`
   * only; every key of `e` is present.
   */
  lemma {:induction false} PutAllKeys<V>(d: Dict<V>, e: Dict<V>)
    ensures Keys(d) <= Keys(PutAll(d, e))
    ensures forall k :: k in Keys(PutAll(d, e)) <==> k in Keys(d) || k in Keys(e)
    decreases |e|
  {
    if e != [] {
      var e', x := e[..|e| - 1], e[|e| - 1];
      PutAllKeys(d, e');
      assert e == e' + [x];
      KeysAppend(e', x);
    }
  }

  /** After `PutAll`, a key holds the value of its last entry in `e`, whatever came before. */
  lemma {:induction false} PutAllLast<V>(d: Dict<V>, e: Dict<V>, i: nat)
    requires i < |e|
    requires forall j :: i < j < |e| ==> e[j].0 != e[i].0
    ensures Get(PutAll(d, e), e[i].0) == Some(e[i].1)
    decreases |e|
  {
    var p, x := e[..|e| - 1], e[|e| - 1];
    var k, v := e[i].0, e[i].1;
    var before := PutAll(d, p);
    assert PutAll(d, e) == Put(before, x.0, x.1);
    PutGet(before, x.0, x.1, k);
    if i < |p| {
      assert p[i] == e[i];
      assert x.0 != k;
      forall j | i < j < |p| ensures p[j].0 != p[i].0 {
        assert p[j] == e[j];
      }
      PutAllLast(d, p, i);
      assert Get(before, k) == Some(v);
    } else {
      assert i == |e| - 1;
    }
  }

  /** `PutAll` keeps distinct keys distinct. */
  lemma {:induction false} PutAllDistinct<V>(d: Dict<V>, e: Dict<V>)
    requires DistinctKeys(d)
    ensures DistinctKeys(PutAll(d, e))
    decreases |e|
  {
    if e != [] {
      PutAllDistinct(d, e[..|e| - 1]);
      PutDistinct(PutAll(d, e[..|e| - 1]), e[|e| - 1].0, e[|e| - 1].1);
    }
  }

  /** Copying a dictionary with distinct keys into an empty one reproduces its key order. */
  lemma {:induction false} PutAllIntoEmptyKeys<V>(m: Dict<V>)
    requires DistinctKeys(m)
    ensures Keys(PutAll([], m)) == Keys(m)
  {
    if m != [] {
      var p, x := m[..|m| - 1], m[|m| - 1];
      assert m == p + [x];
      assert DistinctKeys(p) by {
        forall i, j | 0 <= i < j < |p| ensures p[i].0 != p[j].0 {
          assert p[i] == m[i] && p[j] == m[j];
        }
      }
      PutAllIntoEmptyKeys(p);
      var q := PutAll([], p);
      assert Keys(q) == Keys(p);
      assert x.0 !in Keys(p) by {
        forall j | 0 <= j < |p| ensures Keys(p)[j] != x.0 {
          assert p[j] == m[j];
        }
      }
      assert PutAll([], m) == Put(q, x.0, x.1);
      KeysAppend(p, x);
    }
  }
}
