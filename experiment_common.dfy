/**
 * Pieces the time-limit experiment scripts share: the timeout label, the expansion of a
 * model pair into the models to test, CPython's `random.shuffle`, the timeout rate of a
 * group of runs, and the quality summary of a benchmark run.
 */
module ExperimentCommon {
  import opened Wrappers
  import opened Strings
  import opened Store

  /** What `chat_with_model_timed` returns when it does not raise. */
  datatype Reply = Reply(timedOut: bool, processingTime: real, content: string)

  /** A time limit in seconds; `None` means unlimited. Python treats `None` and `0` as false. */
  predicate Limited(t: Option<int>) {
    t.Some? && t.value != 0
  }

  /**
   * `f"{timeout//60}min" if timeout else "unlimited"`. For the positive divisor 60, Dafny's
   * division rounds down exactly as Python's `//` does.
   */
  function TimeoutLabel(t: Option<int>): (r: string)
    ensures r == "unlimited" <==> !Limited(t)
  {
    if Limited(t) then
      var r := IntToString(t.value / 60) + "min";
      assert r[|r| - 1] == 'n';
      r
    else "unlimited"
  }

  /** A limited label reads back as the whole minutes of the limit. */
  lemma LabelMinutes(t: int)
    requires t != 0
    ensures var r := TimeoutLabel(Some(t));
      |r| > 3 && r[|r| - 3..] == "min" && ParseInt(r[..|r| - 3]) == Success(t / 60)
  {
    var r := TimeoutLabel(Some(t));
    var digits := IntToString(t / 60);
    assert r == digits + "min";
    assert r[..|r| - 3] == digits;
    ParseIntOfIntToString(t / 60);
  }

  /** A standard model and, optionally, its thinking counterpart. */
  type ModelPair = (string, Option<string>)

  /** A string-valued slot is true in Python when present and non-empty. */
  predicate Present(o: Option<string>) {
    o.Some? && o.value != ""
  }

  /** The models a pair puts under test: the first, then the second when it is given. */
  function PairModels(pair: ModelPair): (ms: seq<string>)
    ensures |ms| == if Present(pair.1) then 2 else 1
    ensures ms[0] == pair.0
    ensures |ms| == 2 ==> ms[1] == pair.1.value
  {
    [pair.0] + (if Present(pair.1) then [pair.1.value] else [])
  }

  /** `sum(2 if pair[1] else 1 for pair in model_pairs)`. */
  function ModelTotal(pairs: seq<ModelPair>): nat {
    if pairs == [] then 0 else ModelTotal(pairs[..|pairs| - 1]) + (if Present(pairs[|pairs| - 1].1) then 2 else 1)
  }

  /** Every model the pairs put under test, pair by pair. */
  function AllModels(pairs: seq<ModelPair>): (ms: seq<string>)
    ensures |ms| == ModelTotal(pairs)
  {
    if pairs == [] then [] else AllModels(pairs[..|pairs| - 1]) + PairModels(pairs[|pairs| - 1])
  }

  // ---------------------------------------------------------------------------
  // random.shuffle

  /**
   * The numbers `random.shuffle` draws for a list of length `n`: for each position `i`
   * from `n - 1` down to 1, a partner in `0..i`. Position 0 draws nothing; its slot is 0.
   */
  predicate ValidDraws(draws: seq<nat>, n: nat) {
    |draws| == n && forall i :: 0 <= i < n ==> draws[i] <= i
  }

  function Swap<T>(s: seq<T>, i: nat, j: nat): (r: seq<T>)
    requires i < |s| && j < |s|
    ensures |r| == |s|
    ensures multiset(r) == multiset(s)
  {
    s[i := s[j]][j := s[i]]
  }

  /** The list after the swaps of positions `i - 1` down to 1. */
  function ShuffleDown<T>(s: seq<T>, draws: seq<nat>, i: nat): (r: seq<T>)
    requires ValidDraws(draws, |s|) && i <= |s|
    ensures |r| == |s|
    ensures multiset(r) == multiset(s)
    decreases i
  {
    if i <= 1 then s else ShuffleDown(Swap(s, i - 1, draws[i - 1]), draws, i - 1)
  }

  /** The order `random.shuffle` leaves behind for the given draws: a permutation of `s`. */
  function Shuffled<T>(s: seq<T>, draws: seq<nat>): (r: seq<T>)
    requires ValidDraws(draws, |s|)
    ensures |r| == |s|
    ensures multiset(r) == multiset(s)
  {
    ShuffleDown(s, draws, |s|)
  }

  /** `random.shuffle(a)`, in place, with the generator's draws given. */
  method Shuffle<T>(a: array<T>, draws: seq<nat>)
    requires ValidDraws(draws, a.Length)
    modifies a
    ensures a[..] == Shuffled(old(a[..]), draws)
  {
    var i := a.Length;
    while i > 1
      invariant 0 <= i <= a.Length
      invariant ShuffleDown(a[..], draws, i) == Shuffled(old(a[..]), draws)
    {
      var j := draws[i - 1];
      assert a[..][i - 1 := a[j]][j := a[i - 1]] == Swap(a[..], i - 1, j);
      a[i - 1], a[j] := a[j], a[i - 1];
      i := i - 1;
    }
  }

  // ---------------------------------------------------------------------------
  // Rates and summaries

  /** `sum(flags)`: how many runs timed out. */
  function CountTrue(flags: seq<bool>): (n: nat)
    ensures n <= |flags|
    ensures n == 0 <==> forall i :: 0 <= i < |flags| ==> !flags[i]
    ensures n == |flags| <==> forall i :: 0 <= i < |flags| ==> flags[i]
    ensures n == multiset(flags)[true]
  {
    if flags == [] then 0
    else
      var p := flags[..|flags| - 1];
      assert forall i :: 0 <= i < |p| ==> p[i] == flags[i];
      assert flags == p + [flags[|flags| - 1]];
      CountTrue(p) + (if flags[|flags| - 1] then 1 else 0)
  }

  /** `sum(flags) / len(flags) * 100`, taken only when there are runs. */
  function TimeoutRate(flags: seq<bool>): (r: Option<real>)
    ensures r.Some? <==> flags != []
    ensures r.Some? ==> 0.0 <= r.value <= 100.0
    ensures r.Some? ==> (r.value == 0.0 <==> forall i :: 0 <= i < |flags| ==> !flags[i])
    ensures r.Some? ==> (r.value == 100.0 <==> forall i :: 0 <= i < |flags| ==> flags[i])
    ensures r.Some? ==> r.value * |flags| as real == 100.0 * multiset(flags)[true] as real
  {
    if flags == [] then None
    else
      var c, n := CountTrue(flags) as real, |flags| as real;
      RatioBounds(c, n);
      Some(c / n * 100.0)
  }

  /** A share of `n` lies in [0, 1] and hits the ends exactly at 0 and `n`. */
  lemma RatioBounds(c: real, n: real)
    requires 0.0 <= c <= n && n > 0.0
    ensures 0.0 <= c / n * 100.0 <= 100.0
    ensures c / n * 100.0 == 0.0 <==> c == 0.0
    ensures c / n * 100.0 == 100.0 <==> c == n
    ensures c / n * 100.0 * n == 100.0 * c
  {
    assert c / n <= n / n == 1.0;
  }

  /** The quality figures of one benchmark run. */
  datatype Quality = Quality(finalCoherence: real, finalDissimilarity: real, totalAnswers: nat, avgCoherence: real)

  /** `answer.get('coherence_score', 0)`. */
  function CoherenceOf(a: Answer): real {
    a.coherence.GetOr(0.0)
  }

  function CoherenceSum(answers: seq<Answer>): real {
    if answers == [] then 0.0 else CoherenceSum(answers[..|answers| - 1]) + CoherenceOf(answers[|answers| - 1])
  }

  /**
   * The quality summary of a run: with answers, the last answer's scores and the mean
   * coherence; without, zeros everywhere.
   */
  function Summarize(answers: seq<Answer>): (q: Quality)
    ensures answers == [] ==> q == Quality(0.0, 0.0, 0, 0.0)
    ensures answers != [] ==> q.totalAnswers == |answers| && q.avgCoherence * |answers| as real == CoherenceSum(answers)
    ensures answers != [] ==> q.finalCoherence == CoherenceOf(answers[|answers| - 1])
    ensures answers != [] ==> q.finalDissimilarity == answers[|answers| - 1].embeddingDissimilarity.GetOr(0.0)
  {
    if answers == [] then Quality(0.0, 0.0, 0, 0.0)
    else
      var last := answers[|answers| - 1];
      var n, total := |answers| as real, CoherenceSum(answers);
      DivMul(total, n);
      Quality(CoherenceOf(last), last.embeddingDissimilarity.GetOr(0.0), |answers|, total / n)
  }

  /** Dividing by a positive number and multiplying back gives the number again. */
  lemma DivMul(x: real, n: real)
    requires n > 0.0
    ensures (x / n) * n == x
  {
  }

  /** A sum of scores that all lie in [lo, hi] lies between `n * lo` and `n * hi`. */
  lemma {:induction false} CoherenceSumBounds(answers: seq<Answer>, lo: real, hi: real)
    requires forall i :: 0 <= i < |answers| ==> lo <= CoherenceOf(answers[i]) <= hi
    ensures |answers| as real * lo <= CoherenceSum(answers) <= |answers| as real * hi
  {
    if answers != [] {
      var p := answers[..|answers| - 1];
      assert forall i :: 0 <= i < |p| ==> p[i] == answers[i];
      CoherenceSumBounds(p, lo, hi);
    }
  }

  /** The mean coherence of a run lies within the range of its answers' scores. */
  lemma AverageWithin(answers: seq<Answer>, lo: real, hi: real)
    requires answers != []
    requires forall i :: 0 <= i < |answers| ==> lo <= CoherenceOf(answers[i]) <= hi
    ensures lo <= Summarize(answers).avgCoherence <= hi
  {
    CoherenceSumBounds(answers, lo, hi);
    var n := |answers| as real;
    var avg := Summarize(answers).avgCoherence;
    assert avg * n == CoherenceSum(answers);
    assert avg == CoherenceSum(answers) / n;
  }
}
