/**
 * thresholds.py: a model's score is the number of answers that survive, where each
 * question's answers are taken in `answer_num` order and counting stops at the first
 * answer below either threshold.
 */
module Thresholds {
  import opened Wrappers
  import opened Dicts
  import opened Seqs
  import opened Store

  /** The sort key: `answer_num`, 0 when missing. */
  function AnswerNumKey(a: Answer): int {
    a.answerNum.GetOr(0)
  }

  /**
   * The answer stops the count: coherence below `c`, or dissimilarity times 100 below `d`.
   * A missing score reads as 0.
   */
  predicate Fails(a: Answer, c: real, d: real) {
    a.coherence.GetOr(0.0) < c || a.embeddingDissimilarity.GetOr(0.0) * 100.0 < d
  }

  /** The loop's continuation test, as a value to hand to `LeadingRun`. */
  function Passes(c: real, d: real): Answer -> bool {
    a => !Fails(a, c, d)
  }

  /**
   * How many answers of one question count: after sorting by `answer_num`, every answer
   * before the first failing one, and none after it.
   */
  function QuestionCount(answers: seq<Answer>, c: real, d: real): (n: nat)
    ensures n <= |answers|
    ensures forall j :: 0 <= j < n ==> !Fails(SortBy(answers, AnswerNumKey)[j], c, d)
    ensures n < |answers| ==> Fails(SortBy(answers, AnswerNumKey)[n], c, d)
  {
    LeadingRun(SortBy(answers, AnswerNumKey), Passes(c, d))
  }

  /** The counts of the questions of one temperature group, summed. */
  function QuestionsCount(qs: Questions, c: real, d: real): nat {
    if qs == [] then 0 else QuestionsCount(qs[..|qs| - 1], c, d) + QuestionCount(qs[|qs| - 1].1, c, d)
  }

  /** A model's count: summed over every temperature group and question. */
  function ModelCount(ts: Temps, c: real, d: real): nat {
    if ts == [] then 0 else ModelCount(ts[..|ts| - 1], c, d) + QuestionsCount(ts[|ts| - 1].1, c, d)
  }

  /** The `counts` dictionary once the given models have been processed. */
  function Counts(ms: Models, c: real, d: real): Dict<nat> {
    PutEach(ms, (ts: Temps) => ModelCount(ts, c, d))
  }

  /** The innermost loop of `count_answers`: sort one question's answers, count until a failure. */
  method CountQuestion(answers: seq<Answer>, c: real, d: real) returns (k: nat)
    ensures k == QuestionCount(answers, c, d)
  {
    var sorted := SortBy(answers, AnswerNumKey);
    k := 0;
    while k < |sorted|
      invariant 0 <= k <= |sorted|
      invariant forall j :: 0 <= j < k ==> !Fails(sorted[j], c, d)
    {
      if Fails(sorted[k], c, d) {
        break;
      }
      k := k + 1;
    }
    LeadingRunUnique(sorted, Passes(c, d), k);
  }

  /** The question loop of `count_answers` for one temperature group. */
  method CountQuestions(questions: Questions, c: real, d: real) returns (total: nat)
    ensures total == QuestionsCount(questions, c, d)
  {
    total := 0;
    for q := 0 to |questions|
      invariant total == QuestionsCount(questions[..q], c, d)
    {
      var k := CountQuestion(questions[q].1, c, d);
      total := total + k;
      assert questions[..q + 1][..q] == questions[..q];
    }
    assert questions[..|questions|] == questions;
  }

  /** The temperature loop of `count_answers` for one model. */
  method CountModel(groups: Temps, c: real, d: real) returns (total: nat)
    ensures total == ModelCount(groups, c, d)
  {
    total := 0;
    for g := 0 to |groups|
      invariant total == ModelCount(groups[..g], c, d)
    {
      var k := CountQuestions(groups[g].1, c, d);
      total := total + k;
      assert groups[..g + 1][..g] == groups[..g];
    }
    assert groups[..|groups|] == groups;
  }

  /** `count_answers(data, c, d)`; a file without `models` gives an empty result. */
  method CountAnswers(data: ResultsDoc, c: real, d: real) returns (counts: Dict<nat>)
    ensures counts == Counts(data.models.GetOr([]), c, d)
  {
    var models := data.models.GetOr([]);
    counts := [];
    for i := 0 to |models|
      invariant counts == Counts(models[..i], c, d)
    {
      var total := CountModel(models[i].1, c, d);
      assert models[..i + 1][..i] == models[..i];
      assert Counts(models[..i + 1], c, d) == Put(Counts(models[..i], c, d), models[i].0, ModelCount(models[i].1, c, d));
      counts := Put(counts, models[i].0, total);
    }
    assert models[..|models|] == models;
  }

  /** The result has exactly the models of the file as keys, in file order. */
  lemma CountsKeys(ms: Models, c: real, d: real)
    requires DistinctKeys(ms)
    ensures Keys(Counts(ms, c, d)) == Keys(ms)
  {
    PutEachKeys(ms, (ts: Temps) => ModelCount(ts, c, d));
  }

  /** Each model's entry is its own count. */
  lemma CountsGet(ms: Models, c: real, d: real, i: nat)
    requires DistinctKeys(ms) && i < |ms|
    ensures Get(Counts(ms, c, d), ms[i].0) == Some(ModelCount(ms[i].1, c, d))
  {
    PutEachGet(ms, (ts: Temps) => ModelCount(ts, c, d), i);
  }

  /** Per temperature group, the count never exceeds the number of stored answers. */
  lemma {:induction false} QuestionsCountBound(qs: Questions, c: real, d: real)
    ensures QuestionsCount(qs, c, d) <= QuestionsSize(qs)
  {
    if qs != [] {
      QuestionsCountBound(qs[..|qs| - 1], c, d);
    }
  }

  /** A model's count never exceeds its number of stored answers. */
  lemma {:induction false} ModelCountBound(ts: Temps, c: real, d: real)
    ensures ModelCount(ts, c, d) <= TempsSize(ts)
  {
    if ts != [] {
      ModelCountBound(ts[..|ts| - 1], c, d);
      QuestionsCountBound(ts[|ts| - 1].1, c, d);
    }
  }

  /** Raising a threshold never lets more answers of a question through. */
  lemma QuestionCountMono(answers: seq<Answer>, c1: real, d1: real, c2: real, d2: real)
    requires c1 <= c2 && d1 <= d2
    ensures QuestionCount(answers, c2, d2) <= QuestionCount(answers, c1, d1)
  {
    var s := SortBy(answers, AnswerNumKey);
    forall x | x in s && Passes(c2, d2)(x) ensures Passes(c1, d1)(x) {
      assert !Fails(x, c2, d2);
    }
    LeadingRunMono(s, Passes(c2, d2), Passes(c1, d1));
  }

  lemma {:induction false} QuestionsCountMono(qs: Questions, c1: real, d1: real, c2: real, d2: real)
    requires c1 <= c2 && d1 <= d2
    ensures QuestionsCount(qs, c2, d2) <= QuestionsCount(qs, c1, d1)
  {
    if qs != [] {
      QuestionsCountMono(qs[..|qs| - 1], c1, d1, c2, d2);
      QuestionCountMono(qs[|qs| - 1].1, c1, d1, c2, d2);
    }
  }

  /** Raising either threshold never increases a model's count. */
  lemma {:induction false} ModelCountMono(ts: Temps, c1: real, d1: real, c2: real, d2: real)
    requires c1 <= c2 && d1 <= d2
    ensures ModelCount(ts, c2, d2) <= ModelCount(ts, c1, d1)
  {
    if ts != [] {
      ModelCountMono(ts[..|ts| - 1], c1, d1, c2, d2);
      QuestionsCountMono(ts[|ts| - 1].1, c1, d1, c2, d2);
    }
  }

  /** Answers already stored in `answer_num` order are counted in stored order. */
  lemma QuestionCountInOrder(answers: seq<Answer>, c: real, d: real)
    requires SortedBy(answers, AnswerNumKey)
    ensures QuestionCount(answers, c, d) == LeadingRun(answers, Passes(c, d))
  {
    SortBySorted(answers, AnswerNumKey);
  }
}
