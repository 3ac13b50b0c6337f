/**
 * plot.py's per-model metrics. `calculate_metrics` counts, per temperature group, the
 * leading run of answers that meet both thresholds in each question; the cluster
 * variant counts every passing answer of the cluster's questions, without stopping.
 * Each counted answer adds its dissimilarity, its coherence divided by 100, and one.
 */
module PlotMetrics {
  import opened Wrappers
  import opened Dicts
  import opened Seqs
  import opened Store
  import Thresholds

  /** `ModelMetrics`. */
  datatype Metrics = Metrics(embeddingTotal: real, coherenceTotal: real, validAnswers: nat)

  const NoMetrics := Metrics(0.0, 0.0, 0)

  /** The two scores as the scripts read them (their presence is a precondition where they are indexed). */
  function Emb(a: Answer): real { a.embeddingDissimilarity.GetOr(0.0) }

  function Coh(a: Answer): real { a.coherence.GetOr(0.0) }

  /** The answer meets both thresholds: dissimilarity at least `e`, coherence at least `c`. */
  predicate Valid(a: Answer, e: real, c: real) {
    Emb(a) >= e && Coh(a) >= c
  }

  function ValidTest(e: real, c: real): Answer -> bool {
    a => Valid(a, e, c)
  }

  /** One more answer counted. */
  function Add(m: Metrics, a: Answer): Metrics {
    Metrics(m.embeddingTotal + Emb(a), m.coherenceTotal + Coh(a) / 100.0, m.validAnswers + 1)
  }

  /** Two running totals added up. */
  function Plus(m: Metrics, n: Metrics): Metrics {
    Metrics(m.embeddingTotal + n.embeddingTotal, m.coherenceTotal + n.coherenceTotal, m.validAnswers + n.validAnswers)
  }

  /** Every answer counted meets both thresholds, so the totals are at least the thresholds times the count. */
  predicate Backed(m: Metrics, e: real, c: real) {
    m.embeddingTotal >= e * (m.validAnswers as real) && m.coherenceTotal >= (c / 100.0) * (m.validAnswers as real)
  }

  lemma AddBacked(m: Metrics, a: Answer, e: real, c: real)
    requires Backed(m, e, c) && Valid(a, e, c)
    ensures Backed(Add(m, a), e, c)
  {
    var n := m.validAnswers as real;
    assert e * (n + 1.0) == e * n + e;
    assert (c / 100.0) * (n + 1.0) == (c / 100.0) * n + c / 100.0;
  }

  lemma PlusBacked(m: Metrics, n: Metrics, e: real, c: real)
    requires Backed(m, e, c) && Backed(n, e, c)
    ensures Backed(Plus(m, n), e, c)
  {
    var x, y := m.validAnswers as real, n.validAnswers as real;
    assert e * (x + y) == e * x + e * y;
    assert (c / 100.0) * (x + y) == (c / 100.0) * x + (c / 100.0) * y;
  }

  // ---------------------------------------------------------------------------
  // calculate_metrics

  /** The answers `calculate_metrics` counts for one question: those before the first failing one. */
  function Leading(answers: seq<Answer>, e: real, c: real): (s: seq<Answer>)
    ensures s <= answers
    ensures forall j :: 0 <= j < |s| ==> Valid(s[j], e, c)
    ensures |s| < |answers| ==> !Valid(answers[|s|], e, c)
  {
    answers[..LeadingRun(answers, ValidTest(e, c))]
  }

  /** `m` with every answer of `s` counted, in order. */
  function AddAll(m: Metrics, s: seq<Answer>): Metrics {
    if s == [] then m else Add(AddAll(m, s[..|s| - 1]), s[|s| - 1])
  }

  /** One temperature group under `calculate_metrics`: the leading valid answers of each question, summed. */
  function LeadingTotals(qs: Questions, e: real, c: real): Metrics {
    if qs == [] then NoMetrics
    else AddAll(LeadingTotals(qs[..|qs| - 1], e, c), Leading(qs[|qs| - 1].1, e, c))
  }

  /** `metrics[model]` for one model: one entry per temperature group. */
  function LeadingTable(ts: Temps, e: real, c: real): Dict<Metrics> {
    if ts == [] then []
    else Put(LeadingTable(ts[..|ts| - 1], e, c), ts[|ts| - 1].0, LeadingTotals(ts[|ts| - 1].1, e, c))
  }

  /** The whole result of `calculate_metrics`. */
  function MetricsTable(ms: Models, e: real, c: real): Dict<Dict<Metrics>> {
    if ms == [] then []
    else Put(MetricsTable(ms[..|ms| - 1], e, c), ms[|ms| - 1].0, LeadingTable(ms[|ms| - 1].1, e, c))
  }

  /** The innermost loop: add answers until the first one below a threshold. */
  method AddLeading(acc: Metrics, answers: seq<Answer>, e: real, c: real) returns (r: Metrics)
    requires forall j :: 0 <= j < |answers| ==> Scored(answers[j])
    ensures r == AddAll(acc, Leading(answers, e, c))
  {
    r := acc;
    var k := 0;
    while k < |answers|
      invariant 0 <= k <= |answers|
      invariant forall j :: 0 <= j < k ==> Valid(answers[j], e, c)
      invariant r == AddAll(acc, answers[..k])
    {
      var answer := answers[k];
      if answer.embeddingDissimilarity.value < e || answer.coherence.value < c {
        break;
      }
      assert answers[..k + 1][..k] == answers[..k];
      r := Metrics(r.embeddingTotal + answer.embeddingDissimilarity.value,
                   r.coherenceTotal + answer.coherence.value / 100.0,
                   r.validAnswers + 1);
      k := k + 1;
    }
    LeadingRunUnique(answers, ValidTest(e, c), k);
  }

  /** The metrics of one temperature group. */
  method GroupMetrics(qs: Questions, e: real, c: real) returns (m: Metrics)
    requires QuestionsScored(qs)
    ensures m == LeadingTotals(qs, e, c)
  {
    m := NoMetrics;
    for q := 0 to |qs|
      invariant m == LeadingTotals(qs[..q], e, c)
    {
      m := AddLeading(m, qs[q].1, e, c);
      assert qs[..q + 1][..q] == qs[..q];
    }
    assert qs[..|qs|] == qs;
  }

  /**
   * `calculate_metrics(results, e, c)`. The file must have `models` and every answer
   * both scores (they are indexed directly).
   */
  method CalculateMetrics(results: ResultsDoc, e: real, c: real) returns (metrics: Dict<Dict<Metrics>>)
    requires results.models.Some? && ModelsScored(results.models.value)
    ensures metrics == MetricsTable(results.models.value, e, c)
  {
    var models := results.models.value;
    metrics := [];
    for i := 0 to |models|
      invariant metrics == MetricsTable(models[..i], e, c)
    {
      var groups := models[i].1;
      var table := [];
      for g := 0 to |groups|
        invariant table == LeadingTable(groups[..g], e, c)
      {
        var m := GroupMetrics(groups[g].1, e, c);
        assert groups[..g + 1][..g] == groups[..g];
        table := Put(table, groups[g].0, m);
      }
      assert groups[..|groups|] == groups;
      assert models[..i + 1][..i] == models[..i];
      metrics := Put(metrics, models[i].0, table);
    }
    assert models[..|models|] == models;
  }

  /** Counting `s` onto `m` adds |s| answers, each one meeting both thresholds when all of `s` do. */
  lemma {:induction false} AddAllCount(m: Metrics, s: seq<Answer>, e: real, c: real)
    ensures AddAll(m, s).validAnswers == m.validAnswers + |s|
    ensures Backed(m, e, c) && (forall j :: 0 <= j < |s| ==> Valid(s[j], e, c)) ==> Backed(AddAll(m, s), e, c)
  {
    if s != [] {
      AddAllCount(m, s[..|s| - 1], e, c);
      if Backed(m, e, c) && (forall j :: 0 <= j < |s| ==> Valid(s[j], e, c)) {
        AddBacked(AddAll(m, s[..|s| - 1]), s[|s| - 1], e, c);
      }
    }
  }

  /**
   * `valid_answers` of a temperature group never exceeds the number of answers stored, and
   * each counted answer contributed at least `e` and `c / 100`.
   */
  lemma {:induction false} LeadingTotalsBounds(qs: Questions, e: real, c: real)
    ensures LeadingTotals(qs, e, c).validAnswers <= QuestionsSize(qs)
    ensures Backed(LeadingTotals(qs, e, c), e, c)
  {
    if qs != [] {
      LeadingTotalsBounds(qs[..|qs| - 1], e, c);
      AddAllCount(LeadingTotals(qs[..|qs| - 1], e, c), Leading(qs[|qs| - 1].1, e, c), e, c);
    } else {
      assert e * 0.0 == 0.0 && (c / 100.0) * 0.0 == 0.0;
    }
  }

  /**
   * On answers stored in `answer_num` order, `calculate_metrics` counts exactly what
   * thresholds.py counts with the dissimilarity threshold scaled by 100.
   */
  lemma {:induction false} LeadingAgreesWithThresholds(qs: Questions, e: real, c: real)
    requires forall i :: 0 <= i < |qs| ==> SortedBy(qs[i].1, Thresholds.AnswerNumKey)
    ensures LeadingTotals(qs, e, c).validAnswers == Thresholds.QuestionsCount(qs, c, 100.0 * e)
  {
    if qs != [] {
      var p, answers := qs[..|qs| - 1], qs[|qs| - 1].1;
      assert forall i :: 0 <= i < |p| ==> p[i] == qs[i];
      LeadingAgreesWithThresholds(p, e, c);
      LeadingAgreesOne(answers, e, c);
      AddAllSize(LeadingTotals(p, e, c), Leading(answers, e, c));
    }
  }

  /** For one question of answers in `answer_num` order, the leading run is the threshold count. */
  lemma LeadingAgreesOne(answers: seq<Answer>, e: real, c: real)
    requires SortedBy(answers, Thresholds.AnswerNumKey)
    ensures |Leading(answers, e, c)| == Thresholds.QuestionCount(answers, c, 100.0 * e)
  {
    Thresholds.QuestionCountInOrder(answers, c, 100.0 * e);
    forall x | x in answers && ValidTest(e, c)(x) ensures Thresholds.Passes(c, 100.0 * e)(x) {
      assert Emb(x) * 100.0 >= 100.0 * e;
    }
    forall x | x in answers && Thresholds.Passes(c, 100.0 * e)(x) ensures ValidTest(e, c)(x) {
      assert !Thresholds.Fails(x, c, 100.0 * e);
    }
    LeadingRunMono(answers, ValidTest(e, c), Thresholds.Passes(c, 100.0 * e));
    LeadingRunMono(answers, Thresholds.Passes(c, 100.0 * e), ValidTest(e, c));
  }

  /** Counting the answers of `s` adds `|s|` to the count. */
  lemma {:induction false} AddAllSize(m: Metrics, s: seq<Answer>)
    ensures AddAll(m, s).validAnswers == m.validAnswers + |s|
  {
    if s != [] {
      AddAllSize(m, s[..|s| - 1]);
    }
  }


  // ---------------------------------------------------------------------------
  // get_cluster_questions and calculate_cluster_metrics

  /** One row of the questions file: the text, its number and the clusters it belongs to. */
  datatype QuestionInfo = QuestionInfo(question: string, number: int, clusters: seq<string>)

  /** `get_cluster_questions`: the texts of the questions tagged with `cluster`. */
  function ClusterQuestions(cluster: string, data: seq<QuestionInfo>): (r: set<string>)
    ensures forall q :: q in r <==> exists i :: 0 <= i < |data| && data[i].question == q && cluster in data[i].clusters
  {
    set i | 0 <= i < |data| && cluster in data[i].clusters :: data[i].question
  }

  /** Every answer of `answers` that meets both thresholds, counted without stopping. */
  function PassSum(answers: seq<Answer>, e: real, c: real): Metrics {
    if answers == [] then NoMetrics
    else
      var prev := PassSum(answers[..|answers| - 1], e, c);
      if Valid(answers[|answers| - 1], e, c) then Add(prev, answers[|answers| - 1]) else prev
  }

  /** `if question in questions: <count questions[question]>`. */
  function QuestionSum(qs: Questions, question: string, e: real, c: real): Metrics {
    match Get(qs, question)
    case Some(answers) => PassSum(answers, e, c)
    case None => NoMetrics
  }

  /** The passing answers of the questions of `qs` whose text is in `cluster`. */
  function ClusterSum(qs: Questions, cluster: set<string>, e: real, c: real): Metrics {
    if qs == [] then NoMetrics
    else
      var prev := ClusterSum(qs[..|qs| - 1], cluster, e, c);
      if qs[|qs| - 1].0 in cluster then Plus(prev, PassSum(qs[|qs| - 1].1, e, c)) else prev
  }

  /** A text that is no question of `qs` adds nothing. */
  lemma {:induction false} ClusterSumMissing(qs: Questions, cluster: set<string>, q: string, e: real, c: real)
    requires q !in Keys(qs)
    ensures ClusterSum(qs, cluster + {q}, e, c) == ClusterSum(qs, cluster, e, c)
  {
    if qs != [] {
      var p := qs[..|qs| - 1];
      assert Keys(qs)[|qs| - 1] == qs[|qs| - 1].0;
      assert q !in Keys(p) by {
        forall j | 0 <= j < |p| ensures Keys(p)[j] != q {
          assert Keys(qs)[j] == qs[j].0 == p[j].0;
        }
      }
      ClusterSumMissing(p, cluster, q, e, c);
    }
  }

  /**
   * Taking one more text into the cluster adds exactly that question's passing answers,
   * so the order in which the set of texts is visited does not matter.
   */
  lemma {:induction false} ClusterSumAdd(qs: Questions, cluster: set<string>, q: string, e: real, c: real)
    requires DistinctKeys(qs) && q !in cluster
    ensures ClusterSum(qs, cluster + {q}, e, c) == Plus(ClusterSum(qs, cluster, e, c), QuestionSum(qs, q, e, c))
  {
    if qs != [] {
      var p, x := qs[..|qs| - 1], qs[|qs| - 1];
      assert qs == p + [x];
      assert DistinctKeys(p) by {
        forall i, j | 0 <= i < j < |p| ensures p[i].0 != p[j].0 {
          assert p[i] == qs[i] && p[j] == qs[j];
        }
      }
      ClusterSumAdd(p, cluster, q, e, c);
      GetAppend(p, x, q);
      if x.0 == q {
        assert q !in Keys(p) by {
          forall j | 0 <= j < |p| ensures Keys(p)[j] != q {
            assert p[j] == qs[j];
          }
        }
        ClusterSumLastIn(p, x, cluster, q, e, c);
      } else {
        ClusterSumLastOut(p, x, cluster, q, e, c);
      }
    }
  }

  /** The step of `ClusterSumAdd` where the last question is the added text. */
  lemma ClusterSumLastIn(p: Questions, x: (string, seq<Answer>), cluster: set<string>, q: string, e: real, c: real)
    requires x.0 == q && q !in cluster && Get(p, q) == None
    requires Get(p + [x], q) == Some(x.1)
    requires ClusterSum(p, cluster + {q}, e, c) == Plus(ClusterSum(p, cluster, e, c), QuestionSum(p, q, e, c))
    ensures ClusterSum(p + [x], cluster + {q}, e, c) == Plus(ClusterSum(p + [x], cluster, e, c), QuestionSum(p + [x], q, e, c))
  {
    var qs := p + [x];
    assert qs[..|qs| - 1] == p && qs[|qs| - 1] == x;
    var a := ClusterSum(p, cluster, e, c);
    var b := ClusterSum(p, cluster + {q}, e, c);
    assert QuestionSum(p, q, e, c) == NoMetrics;
    assert b == a;
    assert ClusterSum(qs, cluster, e, c) == a;
    assert ClusterSum(qs, cluster + {q}, e, c) == Plus(b, PassSum(x.1, e, c));
    assert QuestionSum(qs, q, e, c) == PassSum(x.1, e, c);
  }

  /** The step of `ClusterSumAdd` where the last question is another text. */
  lemma ClusterSumLastOut(p: Questions, x: (string, seq<Answer>), cluster: set<string>, q: string, e: real, c: real)
    requires x.0 != q
    requires Get(p + [x], q) == Get(p, q)
    requires ClusterSum(p, cluster + {q}, e, c) == Plus(ClusterSum(p, cluster, e, c), QuestionSum(p, q, e, c))
    ensures ClusterSum(p + [x], cluster + {q}, e, c) == Plus(ClusterSum(p + [x], cluster, e, c), QuestionSum(p + [x], q, e, c))
  {
    var qs := p + [x];
    assert qs[..|qs| - 1] == p && qs[|qs| - 1] == x;
  }

  /** The answer loop of the cluster variant: every answer that meets both thresholds is added. */
  method AddPassing(acc: Metrics, answers: seq<Answer>, e: real, c: real) returns (m: Metrics)
    requires forall j :: 0 <= j < |answers| ==> Scored(answers[j])
    ensures m == Plus(acc, PassSum(answers, e, c))
  {
    m := acc;
    for k := 0 to |answers|
      invariant m == Plus(acc, PassSum(answers[..k], e, c))
    {
      var answer := answers[k];
      assert answers[..k + 1][..k] == answers[..k];
      if answer.embeddingDissimilarity.value >= e && answer.coherence.value >= c {
        m := Metrics(m.embeddingTotal + answer.embeddingDissimilarity.value,
                     m.coherenceTotal + answer.coherence.value / 100.0,
                     m.validAnswers + 1);
      }
    }
    assert answers[..|answers|] == answers;
  }

  /** One visited text: `if question in questions`, its passing answers are added. */
  method AddQuestion(acc: Metrics, qs: Questions, question: string, e: real, c: real) returns (m: Metrics)
    requires QuestionsScored(qs)
    ensures m == Plus(acc, QuestionSum(qs, question, e, c))
  {
    var found := Get(qs, question);
    if found.Some? {
      var i :| 0 <= i < |qs| && qs[i] == (question, found.value);
      m := AddPassing(acc, qs[i].1, e, c);
    } else {
      m := acc;
    }
  }

  /** The passing answers of one temperature group's cluster questions, as the loop over the set finds them. */
  method ClusterGroupMetrics(qs: Questions, cluster: set<string>, e: real, c: real) returns (m: Metrics)
    requires DistinctKeys(qs) && QuestionsScored(qs)
    ensures m == ClusterSum(qs, cluster, e, c)
  {
    m := NoMetrics;
    var remaining := cluster;
    ghost var done: set<string> := {};
    ClusterSumEmpty(qs, e, c);
    while remaining != {}
      invariant done + remaining == cluster && done !! remaining
      invariant m == ClusterSum(qs, done, e, c)
      decreases remaining
    {
      var question :| question in remaining;
      ClusterSumAdd(qs, done, question, e, c);
      m := AddQuestion(m, qs, question, e, c);
      MoveOne(done, remaining, cluster, question);
      done := done + {question};
      remaining := remaining - {question};
    }
    assert done == cluster;
  }

  /** Moving one element from the unvisited to the visited part keeps the two a partition. */
  lemma MoveOne<T>(done: set<T>, remaining: set<T>, all: set<T>, x: T)
    requires done + remaining == all && done !! remaining && x in remaining
    ensures (done + {x}) + (remaining - {x}) == all && (done + {x}) !! (remaining - {x})
  {
  }

  lemma ClusterSumEmpty(qs: Questions, e: real, c: real)
    ensures ClusterSum(qs, {}, e, c) == NoMetrics
  {
    if qs != [] {
      ClusterSumEmpty(qs[..|qs| - 1], e, c);
    }
  }

  /** One model's cluster metrics, per temperature group. */
  function ClusterTable(ts: Temps, cluster: set<string>, e: real, c: real): Dict<Metrics> {
    if ts == [] then []
    else Put(ClusterTable(ts[..|ts| - 1], cluster, e, c), ts[|ts| - 1].0, ClusterSum(ts[|ts| - 1].1, cluster, e, c))
  }

  /** The whole result of `calculate_cluster_metrics`. */
  function ClusterMetricsTable(ms: Models, cluster: set<string>, e: real, c: real): Dict<Dict<Metrics>> {
    if ms == [] then []
    else Put(ClusterMetricsTable(ms[..|ms| - 1], cluster, e, c), ms[|ms| - 1].0, ClusterTable(ms[|ms| - 1].1, cluster, e, c))
  }

  /** `calculate_cluster_metrics(results, cluster_questions, e, c)`. */
  method CalculateClusterMetrics(results: ResultsDoc, cluster: set<string>, e: real, c: real)
      returns (metrics: Dict<Dict<Metrics>>)
    requires results.models.Some? && ModelsScored(results.models.value) && ModelsKeyed(results.models.value)
    ensures metrics == ClusterMetricsTable(results.models.value, cluster, e, c)
  {
    var models := results.models.value;
    metrics := [];
    for i := 0 to |models|
      invariant metrics == ClusterMetricsTable(models[..i], cluster, e, c)
    {
      var groups := models[i].1;
      var table := [];
      for g := 0 to |groups|
        invariant table == ClusterTable(groups[..g], cluster, e, c)
      {
        var m := ClusterGroupMetrics(groups[g].1, cluster, e, c);
        assert groups[..g + 1][..g] == groups[..g];
        table := Put(table, groups[g].0, m);
      }
      assert groups[..|groups|] == groups;
      assert models[..i + 1][..i] == models[..i];
      metrics := Put(metrics, models[i].0, table);
    }
    assert models[..|models|] == models;
  }

  /**
   * Without stopping, the count of one question is the number of its passing answers:
   * never fewer than the leading run `calculate_metrics` counts, never more than all answers.
   */
  lemma {:induction false} PassSumBounds(answers: seq<Answer>, e: real, c: real)
    ensures |Leading(answers, e, c)| <= PassSum(answers, e, c).validAnswers <= |answers|
    ensures Backed(PassSum(answers, e, c), e, c)
  {
    if answers != [] {
      var p := answers[..|answers| - 1];
      PassSumBounds(p, e, c);
      var n := LeadingRun(answers, ValidTest(e, c));
      if n == |answers| {
        assert forall j :: 0 <= j < |p| ==> p[j] == answers[j];
        LeadingRunUnique(p, ValidTest(e, c), |p|);
      } else {
        assert forall j :: 0 <= j < n ==> p[j] == answers[j];
        LeadingRunUnique(p, ValidTest(e, c), n);
      }
      if Valid(answers[|answers| - 1], e, c) {
        AddBacked(PassSum(p, e, c), answers[|answers| - 1], e, c);
      }
    } else {
      assert e * 0.0 == 0.0 && (c / 100.0) * 0.0 == 0.0;
    }
  }

  /** A cluster's count never exceeds the answers stored in the group, and each counted answer passed. */
  lemma {:induction false} ClusterSumBounds(qs: Questions, cluster: set<string>, e: real, c: real)
    ensures ClusterSum(qs, cluster, e, c).validAnswers <= QuestionsSize(qs)
    ensures Backed(ClusterSum(qs, cluster, e, c), e, c)
  {
    if qs != [] {
      var p := qs[..|qs| - 1];
      ClusterSumBounds(p, cluster, e, c);
      PassSumBounds(qs[|qs| - 1].1, e, c);
      PlusBacked(ClusterSum(p, cluster, e, c), PassSum(qs[|qs| - 1].1, e, c), e, c);
    } else {
      assert e * 0.0 == 0.0 && (c / 100.0) * 0.0 == 0.0;
    }
  }
}
