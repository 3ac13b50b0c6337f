/**
 * Sequence helpers shared by the result-processing scripts: sums, the leading run of
 * passing elements, Python's stable `sorted(..., key=...)`, and the outputs of a loop
 * that appends zero or more items per step.
 */
module Seqs {

  /** `sum(f(x) for x in s)`, taken from the last element so loops extend it step by step. */
  function Sum<T>(s: seq<T>, f: T -> int): int {
    if s == [] then 0 else Sum(s[..|s| - 1], f) + f(s[|s| - 1])
  }

  /** The real-valued counterpart of `Sum`. */
  function SumReal<T>(s: seq<T>, f: T -> real): real {
    if s == [] then 0.0 else SumReal(s[..|s| - 1], f) + f(s[|s| - 1])
  }

  /** A sum is monotone in its summands. */
  lemma {:induction false} SumMono<T>(s: seq<T>, f: T -> int, g: T -> int)
    requires forall x :: x in s ==> f(x) <= g(x)
    ensures Sum(s, f) <= Sum(s, g)
  {
    if s != [] {
      assert forall x :: x in s[..|s| - 1] ==> x in s;
      SumMono(s[..|s| - 1], f, g);
    }
  }

  /** A sum of non-negative summands is non-negative. */
  lemma {:induction false} SumNonNeg<T>(s: seq<T>, f: T -> int)
    requires forall x :: x in s ==> 0 <= f(x)
    ensures 0 <= Sum(s, f)
  {
    if s != [] {
      assert forall x :: x in s[..|s| - 1] ==> x in s;
      SumNonNeg(s[..|s| - 1], f);
    }
  }

  /**
   * The length of the leading run of elements satisfying `ok`: the number of iterations a
   * `for x in s: if not ok(x): break` loop completes.
   */
  function LeadingRun<T>(s: seq<T>, ok: T -> bool): (n: nat)
    ensures n <= |s|
    ensures forall j :: 0 <= j < n ==> ok(s[j])
    ensures n < |s| ==> !ok(s[n])
  {
    if s == [] || !ok(s[0]) then 0 else 1 + LeadingRun(s[1..], ok)
  }

  /** The leading run is determined by the two facts its contract states. */
  lemma {:induction false} LeadingRunUnique<T>(s: seq<T>, ok: T -> bool, n: nat)
    requires n <= |s|
    requires forall j :: 0 <= j < n ==> ok(s[j])
    requires n < |s| ==> !ok(s[n])
    ensures LeadingRun(s, ok) == n
  {
    if n > 0 {
      assert ok(s[0]);
      assert forall j :: 0 <= j < n - 1 ==> s[1..][j] == s[j + 1];
      LeadingRunUnique(s[1..], ok, n - 1);
    }
  }

  /** A weaker test never has a shorter leading run. */
  lemma {:induction false} LeadingRunMono<T>(s: seq<T>, strict: T -> bool, lax: T -> bool)
    requires forall x :: x in s && strict(x) ==> lax(x)
    ensures LeadingRun(s, strict) <= LeadingRun(s, lax)
  {
    if s != [] && strict(s[0]) {
      assert s[0] in s;
      assert forall x :: x in s[1..] ==> x in s;
      LeadingRunMono(s[1..], strict, lax);
    }
  }

  /** Each key is at most the next one. */
  predicate SortedBy<T>(s: seq<T>, key: T -> int) {
    forall i :: 0 < i < |s| ==> key(s[i - 1]) <= key(s[i])
  }

  /** In a sorted sequence every earlier key is at most every later one. */
  lemma {:induction false} SortedByPairs<T>(s: seq<T>, key: T -> int, i: nat, j: nat)
    requires SortedBy(s, key) && i <= j < |s|
    ensures key(s[i]) <= key(s[j])
    decreases j - i
  {
    if i < j {
      SortedByPairs(s, key, i + 1, j);
    }
  }

  /**
   * Inserts `x` after every element whose key is not greater than its own, so that it
   * follows the elements of equal key (`InsertStable`).
   */
  function Insert<T>(x: T, s: seq<T>, key: T -> int): (r: seq<T>)
    requires SortedBy(s, key)
    ensures SortedBy(r, key)
    ensures multiset(r) == multiset(s) + multiset{x}
    ensures |r| == |s| + 1
    ensures r[0] == x || (s != [] && r[0] == s[0])
  {
    if s == [] then [x]
    else if key(x) < key(s[0]) then [x] + s
    else
      var t := Insert(x, s[1..], key);
      assert s == [s[0]] + s[1..];
      [s[0]] + t
  }

  /** Python's stable `sorted(s, key=key)`, as an insertion sort (stability: `SortByStable`). */
  function SortBy<T>(s: seq<T>, key: T -> int): (r: seq<T>)
    ensures SortedBy(r, key)
    ensures multiset(r) == multiset(s)
    ensures |r| == |s|
  {
    if s == [] then []
    else
      assert s == s[..|s| - 1] + [s[|s| - 1]];
      Insert(s[|s| - 1], SortBy(s[..|s| - 1], key), key)
  }

  /** An element whose key is at least the last key already there goes to the end. */
  lemma {:induction false} InsertLast<T>(x: T, s: seq<T>, key: T -> int)
    requires SortedBy(s, key)
    requires s != [] ==> key(s[|s| - 1]) <= key(x)
    ensures Insert(x, s, key) == s + [x]
  {
    if s != [] {
      SortedByPairs(s, key, 0, |s| - 1);
      if |s| > 1 {
        assert s[1..][|s| - 2] == s[|s| - 1];
      }
      InsertLast(x, s[1..], key);
      assert [s[0]] + (s[1..] + [x]) == s + [x];
    }
  }

  /** Stability: sorting a sequence that is already in key order leaves it unchanged. */
  lemma {:induction false} SortBySorted<T>(s: seq<T>, key: T -> int)
    requires SortedBy(s, key)
    ensures SortBy(s, key) == s
  {
    if s != [] {
      var p := s[..|s| - 1];
      assert SortedBy(p, key);
      SortBySorted(p, key);
      InsertLast(s[|s| - 1], p, key);
      assert p + [s[|s| - 1]] == s;
    }
  }

  /** The elements of `s` whose key is `k`, in the order they appear in `s`. */
  function KeyRun<T>(s: seq<T>, key: T -> int, k: int): seq<T> {
    if s == [] then [] else (if key(s[0]) == k then [s[0]] else []) + KeyRun(s[1..], key, k)
  }

  /** The elements with key `k` of a concatenation are those of each part in turn. */
  lemma {:induction false} KeyRunAppend<T>(a: seq<T>, b: seq<T>, key: T -> int, k: int)
    ensures KeyRun(a + b, key, k) == KeyRun(a, key, k) + KeyRun(b, key, k)
  {
    if a == [] {
      assert a + b == b;
    } else {
      var h: seq<T> := if key(a[0]) == k then [a[0]] else [];
      assert (a + b)[0] == a[0] && (a + b)[1..] == a[1..] + b;
      assert KeyRun(a + b, key, k) == h + KeyRun(a[1..] + b, key, k);
      KeyRunAppend(a[1..], b, key, k);
      assert KeyRun(a, key, k) == h + KeyRun(a[1..], key, k);
    }
  }

  /** No element of a sorted sequence whose first key is above `k` has key `k`. */
  lemma {:induction false} KeyRunAbove<T>(s: seq<T>, key: T -> int, k: int)
    requires SortedBy(s, key) && (s != [] ==> k < key(s[0]))
    ensures KeyRun(s, key, k) == []
  {
    if s != [] {
      if |s| > 1 {
        assert key(s[0]) <= key(s[1]);
      }
      KeyRunAbove(s[1..], key, k);
    }
  }

  /**
   * Stability of `Insert`: among the elements of any one key, `x` comes after those already
   * in `s`, which keep their order.
   */
  lemma {:induction false} InsertStable<T>(x: T, s: seq<T>, key: T -> int, k: int)
    requires SortedBy(s, key)
    ensures KeyRun(Insert(x, s, key), key, k) == KeyRun(s, key, k) + (if key(x) == k then [x] else [])
  {
    var hx: seq<T> := if key(x) == k then [x] else [];
    if s == [] {
      assert KeyRun([x], key, k) == hx + KeyRun([], key, k);
    } else if key(x) < key(s[0]) {
      assert Insert(x, s, key) == [x] + s;
      assert ([x] + s)[0] == x && ([x] + s)[1..] == s;
      assert KeyRun([x] + s, key, k) == hx + KeyRun(s, key, k);
      if key(x) == k {
        KeyRunAbove(s, key, k);
      }
    } else {
      var t := Insert(x, s[1..], key);
      assert Insert(x, s, key) == [s[0]] + t;
      InsertStable(x, s[1..], key, k);
      var h: seq<T> := if key(s[0]) == k then [s[0]] else [];
      assert ([s[0]] + t)[0] == s[0] && ([s[0]] + t)[1..] == t;
      assert KeyRun([s[0]] + t, key, k) == h + KeyRun(t, key, k);
      assert KeyRun(s, key, k) == h + KeyRun(s[1..], key, k);
    }
  }

  /**
   * Stability of `SortBy`, as Python's `sorted` promises: the elements of any one key keep
   * the order they had in `s`.
   */
  lemma {:induction false} SortByStable<T>(s: seq<T>, key: T -> int, k: int)
    ensures KeyRun(SortBy(s, key), key, k) == KeyRun(s, key, k)
  {
    if s != [] {
      var p, x := s[..|s| - 1], s[|s| - 1];
      assert s == p + [x];
      assert SortBy(s, key) == Insert(x, SortBy(p, key), key);
      SortByStable(p, key, k);
      InsertStable(x, SortBy(p, key), key, k);
      KeyRunAppend(p, [x], key, k);
      assert KeyRun([x], key, k) == (if key(x) == k then [x] else []) + KeyRun([], key, k);
    }
  }

  /** A prefix is the shorter prefix followed by the slice between. */
  lemma PrefixSplit<T>(s: seq<T>, i: nat, j: nat)
    requires i <= j <= |s|
    ensures s[..j] == s[..i] + s[i..j]
  {
  }

  /** `a` lists some of the elements of `b`, in the order they appear in `b`. */
  ghost predicate Subseq<T>(a: seq<T>, b: seq<T>)
    decreases |b|
  {
    if b == [] then a == []
    else Subseq(a, b[..|b| - 1]) || (a != [] && a[|a| - 1] == b[|b| - 1] && Subseq(a[..|a| - 1], b[..|b| - 1]))
  }

  /** Keeping the next element of `b` extends a subsequence. */
  lemma SubseqKeep<T>(a: seq<T>, b: seq<T>, x: T)
    requires Subseq(a, b)
    ensures Subseq(a + [x], b + [x])
  {
    assert (a + [x])[..|a|] == a && (b + [x])[..|b|] == b;
  }

  /** Skipping the next element of `b` keeps a subsequence. */
  lemma SubseqSkip<T>(a: seq<T>, b: seq<T>, x: T)
    requires Subseq(a, b)
    ensures Subseq(a, b + [x])
  {
    assert (b + [x])[..|b|] == b;
  }

  /**
   * The items a loop appends when step `start + i` handles `s[i]` and appends `f(s[i], start + i)`.
   */
  function Collect<T, R>(s: seq<T>, start: nat, f: (T, nat) -> seq<R>): seq<R> {
    if s == [] then [] else Collect(s[..|s| - 1], start, f) + f(s[|s| - 1], start + |s| - 1)
  }

  /** Running two lists one after the other appends their outputs, the second numbered on. */
  lemma {:induction false} CollectAppend<T, R>(a: seq<T>, b: seq<T>, start: nat, f: (T, nat) -> seq<R>)
    ensures Collect(a + b, start, f) == Collect(a, start, f) + Collect(b, start + |a|, f)
    decreases |b|
  {
    if b == [] {
      assert a + b == a;
    } else {
      var q := b[..|b| - 1];
      assert (a + b)[..|a + b| - 1] == a + q;
      CollectAppend(a, q, start, f);
    }
  }

  /** When every step appends at most one item, the output is no longer than the input. */
  lemma {:induction false} CollectAtMostOne<T, R>(s: seq<T>, start: nat, f: (T, nat) -> seq<R>)
    requires forall x, k :: |f(x, k)| <= 1
    ensures |Collect(s, start, f)| <= |s|
  {
    if s != [] {
      CollectAtMostOne(s[..|s| - 1], start, f);
    }
  }
}
