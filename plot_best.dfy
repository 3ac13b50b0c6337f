/**
 * plot.py's rankings: the best model of each question cluster and of each question for
 * every metric, and each model's best scores across temperatures (`get_max_scores`).
 * A model's score for a metric is the maximum over its temperature groups, starting
 * from 0; the winner among models is the first one with the greatest score, which is
 * what both Python's `max` over dictionary items and a strict `>` scan from minus
 * infinity select.
 */
module PlotBest {
  import opened Wrappers
  import opened Dicts
  import opened Store
  import opened PlotMetrics
  import opened PlotText

  datatype Metric = Embedding | Coherence | AnswerCount

  /** One value per metric: 'embedding', 'coherence' and 'answers'. */
  datatype ByMetric<T> = ByMetric(embedding: T, coherence: T, answers: T)

  function Pick<T>(b: ByMetric<T>, metric: Metric): T {
    match metric
    case Embedding => b.embedding
    case Coherence => b.coherence
    case AnswerCount => b.answers
  }

  type Scores = ByMetric<real>

  const ZeroScores: Scores := ByMetric(0.0, 0.0, 0.0)

  /** The three totals of a group as scores (the answer count as a number). */
  function Totals(m: Metrics): Scores {
    ByMetric(m.embeddingTotal, m.coherenceTotal, m.validAnswers as real)
  }

  function Max(x: real, y: real): real {
    if x >= y then x else y
  }

  /** `max(current, new)` for every metric separately. */
  function MaxScores(s: Scores, t: Scores): (r: Scores)
    ensures forall metric :: Pick(s, metric) <= Pick(r, metric) && Pick(t, metric) <= Pick(r, metric)
    ensures forall metric :: Pick(r, metric) == Pick(s, metric) || Pick(r, metric) == Pick(t, metric)
  {
    ByMetric(Max(s.embedding, t.embedding), Max(s.coherence, t.coherence), Max(s.answers, t.answers))
  }

  // ---------------------------------------------------------------------------
  // The first greatest entry

  /** The position of the first greatest score. */
  function FirstMax(entries: seq<(string, real)>): (i: nat)
    requires |entries| > 0
    ensures i < |entries|
    ensures forall j :: 0 <= j < |entries| ==> entries[j].1 <= entries[i].1
    ensures forall j :: 0 <= j < i ==> entries[j].1 < entries[i].1
  {
    if |entries| == 1 then 0
    else
      var k := FirstMax(entries[..|entries| - 1]);
      if entries[|entries| - 1].1 > entries[k].1 then |entries| - 1 else k
  }

  /** The two facts of `FirstMax`'s contract single out one position. */
  lemma FirstMaxUnique(entries: seq<(string, real)>, i: nat)
    requires i < |entries|
    requires forall j :: 0 <= j < |entries| ==> entries[j].1 <= entries[i].1
    requires forall j :: 0 <= j < i ==> entries[j].1 < entries[i].1
    ensures FirstMax(entries) == i
  {
    var k := FirstMax(entries);
    assert !(k < i) && !(i < k);
  }

  /** The winning (name, score) pair. */
  function Leader(entries: seq<(string, real)>): (string, real)
    requires |entries| > 0
  {
    entries[FirstMax(entries)]
  }

  /**
   * `best = -inf; for name, score in entries: if score > best: best, best_name = score, name`;
   * `None` when there is nothing to scan.
   */
  method ScanBest(entries: seq<(string, real)>) returns (best: Option<(string, real)>)
    ensures entries == [] ==> best == None
    ensures entries != [] ==> best == Some(Leader(entries))
  {
    best := None;
    for k := 0 to |entries|
      invariant k == 0 ==> best == None
      invariant k > 0 ==> best == Some(entries[FirstMax(entries[..k])])
    {
      var prefix := entries[..k + 1];
      assert prefix[..k] == entries[..k];
      if best.None? || entries[k].1 > best.value.1 {
        best := Some(entries[k]);
      }
    }
    assert entries[..|entries|] == entries;
  }

  /** One metric's column of a list of (name, scores) entries. */
  function Column(entries: seq<(string, Scores)>, metric: Metric): (col: seq<(string, real)>)
    ensures |col| == |entries|
    ensures forall k :: 0 <= k < |entries| ==> col[k] == (entries[k].0, Pick(entries[k].1, metric))
  {
    seq(|entries|, k requires 0 <= k < |entries| => (entries[k].0, Pick(entries[k].1, metric)))
  }

  /** The winner of every metric, or nothing when there are no entries. */
  function LeadersOf(entries: seq<(string, Scores)>): Option<ByMetric<(string, real)>> {
    if entries == [] then None
    else Some(ByMetric(Leader(Column(entries, Embedding)), Leader(Column(entries, Coherence)),
                       Leader(Column(entries, AnswerCount))))
  }

  /** Every metric's winner: its score is the greatest, and every earlier entry scores strictly less. */
  lemma LeadersOfBest(entries: seq<(string, Scores)>, metric: Metric)
    requires entries != []
    ensures var w := Pick(LeadersOf(entries).value, metric);
      exists i :: 0 <= i < |entries| && w == (entries[i].0, Pick(entries[i].1, metric))
        && (forall j :: 0 <= j < |entries| ==> Pick(entries[j].1, metric) <= w.1)
        && (forall j :: 0 <= j < i ==> Pick(entries[j].1, metric) < w.1)
  {
    var col := Column(entries, metric);
    var i := FirstMax(col);
    assert Pick(LeadersOf(entries).value, metric) == col[i];
    assert forall j :: 0 <= j < |entries| ==> Pick(entries[j].1, metric) == col[j].1;
  }

  /** `max(items, key=score)` for the three metrics. */
  method PickLeaders(entries: seq<(string, Scores)>) returns (leaders: Option<ByMetric<(string, real)>>)
    ensures leaders == LeadersOf(entries)
  {
    if entries == [] {
      return None;
    }
    var e := ScanBest(Column(entries, Embedding));
    var c := ScanBest(Column(entries, Coherence));
    var a := ScanBest(Column(entries, AnswerCount));
    leaders := Some(ByMetric(e.value, c.value, a.value));
  }

  // ---------------------------------------------------------------------------
  // get_best_models_per_cluster

  /** How often `x` occurs in `s`. */
  function Occurrences(s: seq<string>, x: string): nat {
    if s == [] then 0 else Occurrences(s[..|s| - 1], x) + (if s[|s| - 1] == x then 1 else 0)
  }

  /** `cluster_question_counts[cluster]`: a question counts once per listing of the cluster. */
  function ClusterCount(data: seq<QuestionInfo>, cluster: string): nat {
    if data == [] then 0 else ClusterCount(data[..|data| - 1], cluster) + Occurrences(data[|data| - 1].clusters, cluster)
  }

  /** The elements of a sequence as a set. */
  function Elements(s: seq<string>): set<string> {
    if s == [] then {} else Elements(s[..|s| - 1]) + {s[|s| - 1]}
  }

  /** `clusters`: every cluster some question lists. */
  function AllClusters(data: seq<QuestionInfo>): set<string> {
    if data == [] then {} else AllClusters(data[..|data| - 1]) + Elements(data[|data| - 1].clusters)
  }

  lemma {:induction false} ElementsOccur(s: seq<string>, x: string)
    ensures x in Elements(s) <==> Occurrences(s, x) > 0
  {
    if s != [] {
      ElementsOccur(s[..|s| - 1], x);
    }
  }

  /** A listed cluster has a positive question count, so its averages never divide by zero. */
  lemma {:induction false} ClusterCountPositive(data: seq<QuestionInfo>, cluster: string)
    ensures cluster in AllClusters(data) <==> ClusterCount(data, cluster) > 0
  {
    if data != [] {
      ClusterCountPositive(data[..|data| - 1], cluster);
      ElementsOccur(data[|data| - 1].clusters, cluster);
    }
  }

  /** A group's cluster totals divided by the cluster's question count (0 when that count is 0). */
  function Average(m: Metrics, n: nat): Scores {
    if n > 0 then ByMetric(m.embeddingTotal / (n as real), m.coherenceTotal / (n as real), (m.validAnswers as real) / (n as real))
    else ZeroScores
  }

  /** A model's best averages over its temperature groups, starting from 0. */
  function BestOverTemps(ts: Temps, cq: set<string>, n: nat, e: real, c: real): Scores {
    if ts == [] then ZeroScores
    else MaxScores(BestOverTemps(ts[..|ts| - 1], cq, n, e, c), Average(ClusterSum(ts[|ts| - 1].1, cq, e, c), n))
  }

  /** Every model with at least one temperature group, with its best averages, in file order. */
  function ClusterEntries(ms: Models, cq: set<string>, n: nat, e: real, c: real): seq<(string, Scores)> {
    if ms == [] then []
    else
      var prev := ClusterEntries(ms[..|ms| - 1], cq, n, e, c);
      var ts := ms[|ms| - 1].1;
      if ts == [] then prev else prev + [(ms[|ms| - 1].0, BestOverTemps(ts, cq, n, e, c))]
  }

  /** `best_performers[cluster]`: no entry when no model has a temperature group. */
  function ClusterLeaders(ms: Models, data: seq<QuestionInfo>, cluster: string, e: real, c: real): Option<ByMetric<(string, real)>> {
    LeadersOf(ClusterEntries(ms, ClusterQuestions(cluster, data), ClusterCount(data, cluster), e, c))
  }

  /** The whole result of `get_best_models_per_cluster`. */
  function BestPerCluster(ms: Models, data: seq<QuestionInfo>, e: real, c: real): map<string, Option<ByMetric<(string, real)>>> {
    map cluster | cluster in AllClusters(data) :: ClusterLeaders(ms, data, cluster, e, c)
  }

  /** The best of `0` and a model's averages is at least each group's average and is one of them or 0. */
  lemma {:induction false} BestOverTempsBounds(ts: Temps, cq: set<string>, n: nat, e: real, c: real, metric: Metric)
    ensures Pick(BestOverTemps(ts, cq, n, e, c), metric) >= 0.0
    ensures forall g :: 0 <= g < |ts| ==> Pick(Average(ClusterSum(ts[g].1, cq, e, c), n), metric) <= Pick(BestOverTemps(ts, cq, n, e, c), metric)
    ensures Pick(BestOverTemps(ts, cq, n, e, c), metric) == 0.0
      || exists g :: 0 <= g < |ts| && Pick(BestOverTemps(ts, cq, n, e, c), metric) == Pick(Average(ClusterSum(ts[g].1, cq, e, c), n), metric)
  {
    if ts != [] {
      var p := ts[..|ts| - 1];
      BestOverTempsBounds(p, cq, n, e, c, metric);
      assert forall g :: 0 <= g < |p| ==> p[g] == ts[g];
    }
  }

  /** The count loop for one question's cluster list. */
  method CountListed(clusters: set<string>, counts: map<string, nat>, listed: seq<string>)
      returns (clusters': set<string>, counts': map<string, nat>)
    ensures clusters' == clusters + Elements(listed)
    ensures forall x :: Lookup(counts', x) == Lookup(counts, x) + Occurrences(listed, x)
  {
    clusters', counts' := clusters, counts;
    for j := 0 to |listed|
      invariant clusters' == clusters + Elements(listed[..j])
      invariant forall x :: Lookup(counts', x) == Lookup(counts, x) + Occurrences(listed[..j], x)
    {
      var cluster := listed[j];
      assert listed[..j + 1][..j] == listed[..j];
      clusters' := clusters' + {cluster};
      counts' := counts'[cluster := Lookup(counts', cluster) + 1];
    }
    assert listed[..|listed|] == listed;
  }

  /** `defaultdict(int)` lookup. */
  function Lookup(counts: map<string, nat>, x: string): nat {
    if x in counts then counts[x] else 0
  }

  /** The best averages of one model over its temperature groups, and whether it had any. */
  method ModelClusterScores(ts: Temps, cq: set<string>, n: nat, e: real, c: real) returns (best: Scores)
    requires TempsKeyed(ts) && TempsScored(ts)
    ensures best == BestOverTemps(ts, cq, n, e, c)
  {
    best := ZeroScores;
    for g := 0 to |ts|
      invariant best == BestOverTemps(ts[..g], cq, n, e, c)
    {
      var m := ClusterGroupMetrics(ts[g].1, cq, e, c);
      var avg := if n > 0 then ByMetric(m.embeddingTotal / (n as real), m.coherenceTotal / (n as real), (m.validAnswers as real) / (n as real))
                 else ZeroScores;
      assert ts[..g + 1][..g] == ts[..g];
      best := MaxScores(best, avg);
    }
    assert ts[..|ts|] == ts;
  }

  /** One cluster: the averages of every model, then the leader of each metric. */
  method BestForCluster(ms: Models, cq: set<string>, n: nat, e: real, c: real) returns (leaders: Option<ByMetric<(string, real)>>)
    requires ModelsKeyed(ms) && ModelsScored(ms)
    ensures leaders == LeadersOf(ClusterEntries(ms, cq, n, e, c))
  {
    var entries := [];
    for i := 0 to |ms|
      invariant entries == ClusterEntries(ms[..i], cq, n, e, c)
    {
      assert ms[..i + 1][..i] == ms[..i];
      var ts := ms[i].1;
      if ts != [] {
        var best := ModelClusterScores(ts, cq, n, e, c);
        entries := entries + [(ms[i].0, best)];
      }
    }
    assert ms[..|ms|] == ms;
    leaders := PickLeaders(entries);
  }

  /** The first loop of `get_best_models_per_cluster`: every cluster named, and how many questions name each. */
  method CountClusters(data: seq<QuestionInfo>) returns (clusters: set<string>, counts: map<string, nat>)
    ensures clusters == AllClusters(data)
    ensures forall x :: Lookup(counts, x) == ClusterCount(data, x)
  {
    clusters, counts := {}, map[];
    for i := 0 to |data|
      invariant clusters == AllClusters(data[..i])
      invariant forall x :: Lookup(counts, x) == ClusterCount(data[..i], x)
    {
      assert data[..i + 1][..i] == data[..i];
      clusters, counts := CountListed(clusters, counts, data[i].clusters);
    }
    assert data[..|data|] == data;
  }

  /**
   * `get_best_models_per_cluster(results, questions_data, e, c)`: the clusters and their
   * question counts are gathered first; then each cluster, visited in any order, gets the
   * leader of each metric.
   */
  method GetBestModelsPerCluster(results: ResultsDoc, data: seq<QuestionInfo>, e: real, c: real)
      returns (best: map<string, Option<ByMetric<(string, real)>>>)
    requires results.models.Some? && ModelsKeyed(results.models.value) && ModelsScored(results.models.value)
    ensures best == BestPerCluster(results.models.value, data, e, c)
  {
    var ms := results.models.value;
    var clusters, counts := CountClusters(data);
    best := map cluster | cluster in clusters :: None;
    var remaining := clusters;
    while remaining != {}
      invariant remaining <= clusters && best.Keys == clusters
      invariant forall x :: x in clusters && x !in remaining ==> best[x] == ClusterLeaders(ms, data, x, e, c)
      decreases remaining
    {
      var cluster :| cluster in remaining;
      var cq := ClusterQuestions(cluster, data);
      var leaders := BestForCluster(ms, cq, Lookup(counts, cluster), e, c);
      ClusterCountPositive(data, cluster);
      best := best[cluster := leaders];
      remaining := remaining - {cluster};
    }
  }

  // ---------------------------------------------------------------------------
  // get_best_models_per_question

  /** The (normalized text, number) pairs of `question_map`'s comprehension, in file order. */
  function QuestionEntries(data: seq<QuestionInfo>): (entries: Dict<int>)
    ensures |entries| == |data|
    ensures forall i :: 0 <= i < |data| ==> entries[i] == (NormalizeText(data[i].question), data[i].number)
  {
    seq(|data|, i requires 0 <= i < |data| => (NormalizeText(data[i].question), data[i].number))
  }

  /** `question_map`: normalized text to question number; a later duplicate text overwrites the number. */
  function QuestionMap(data: seq<QuestionInfo>): Dict<int> {
    PutAll([], QuestionEntries(data))
  }

  /** `defaultdict(float)` lookup of a question number. */
  function ScoresAt(m: map<int, Scores>, q: int): Scores {
    if q in m then m[q] else ZeroScores
  }

  /**
   * One question of a group: when its normalized text is a known question, that number's
   * scores become the maximum of what they were and this question's totals.
   */
  function QuestionStep(prev: map<int, Scores>, entry: (string, seq<Answer>), qmap: Dict<int>, e: real, c: real): map<int, Scores> {
    match Get(qmap, NormalizeText(entry.0))
    case None => prev
    case Some(num) => prev[num := MaxScores(ScoresAt(prev, num), Totals(PassSum(entry.1, e, c)))]
  }

  /** The scores of one temperature group's questions folded into `acc`, question by question. */
  function GroupQuestionScores(acc: map<int, Scores>, qs: Questions, qmap: Dict<int>, e: real, c: real): map<int, Scores> {
    if qs == [] then acc
    else QuestionStep(GroupQuestionScores(acc, qs[..|qs| - 1], qmap, e, c), qs[|qs| - 1], qmap, e, c)
  }

  /** `model_scores[metric][model]` for one model: the best per question number over its groups. */
  function ModelQuestionScores(ts: Temps, qmap: Dict<int>, e: real, c: real): map<int, Scores> {
    if ts == [] then map[]
    else GroupQuestionScores(ModelQuestionScores(ts[..|ts| - 1], qmap, e, c), ts[|ts| - 1].1, qmap, e, c)
  }

  /** Every model's score for question `q` under one metric, in file order. */
  function QuestionColumn(ms: Models, qmap: Dict<int>, q: int, metric: Metric, e: real, c: real): (col: seq<(string, real)>)
    ensures |col| == |ms|
  {
    if ms == [] then []
    else
      var score := Pick(ScoresAt(ModelQuestionScores(ms[|ms| - 1].1, qmap, e, c), q), metric);
      QuestionColumn(ms[..|ms| - 1], qmap, q, metric, e, c) + [(ms[|ms| - 1].0, score)]
  }

  /** `best_scores[metric]`: every listed question number gets the first best model, if there is any model. */
  function BestForMetric(ms: Models, data: seq<QuestionInfo>, metric: Metric, e: real, c: real): map<int, (string, real)> {
    var qmap := QuestionMap(data);
    if ms == [] then map[]
    else map q | q in Values(qmap) :: Leader(QuestionColumn(ms, qmap, q, metric, e, c))
  }

  /** The whole result of `get_best_models_per_question`. */
  function BestPerQuestion(ms: Models, data: seq<QuestionInfo>, e: real, c: real): ByMetric<map<int, (string, real)>> {
    ByMetric(BestForMetric(ms, data, Embedding, e, c), BestForMetric(ms, data, Coherence, e, c),
             BestForMetric(ms, data, AnswerCount, e, c))
  }

  /** The body of the question loop. */
  method ScoreQuestion(r: map<int, Scores>, entry: (string, seq<Answer>), qmap: Dict<int>, e: real, c: real)
      returns (r': map<int, Scores>)
    requires forall j :: 0 <= j < |entry.1| ==> Scored(entry.1[j])
    ensures r' == QuestionStep(r, entry, qmap, e, c)
  {
    var normalized := NormalizeText(entry.0);
    var found := Get(qmap, normalized);
    if found.Some? {
      var num := found.value;
      var totals := AddPassing(NoMetrics, entry.1, e, c);
      assert totals == PassSum(entry.1, e, c);
      var current := if num in r then r[num] else ZeroScores;
      r' := r[num := MaxScores(current, Totals(totals))];
    } else {
      r' := r;
    }
  }

  /** The question loop of one temperature group. */
  method FoldGroupQuestions(acc: map<int, Scores>, qs: Questions, qmap: Dict<int>, e: real, c: real)
      returns (r: map<int, Scores>)
    requires QuestionsScored(qs)
    ensures r == GroupQuestionScores(acc, qs, qmap, e, c)
  {
    r := acc;
    for k := 0 to |qs|
      invariant r == GroupQuestionScores(acc, qs[..k], qmap, e, c)
    {
      assert qs[..k + 1][..k] == qs[..k];
      r := ScoreQuestion(r, qs[k], qmap, e, c);
    }
    assert qs[..|qs|] == qs;
  }

  /** One model's per-question scores. */
  method ModelScoresPerQuestion(ts: Temps, qmap: Dict<int>, e: real, c: real) returns (r: map<int, Scores>)
    requires TempsScored(ts)
    ensures r == ModelQuestionScores(ts, qmap, e, c)
  {
    r := map[];
    for g := 0 to |ts|
      invariant r == ModelQuestionScores(ts[..g], qmap, e, c)
    {
      assert ts[..g + 1][..g] == ts[..g];
      r := FoldGroupQuestions(r, ts[g].1, qmap, e, c);
    }
    assert ts[..|ts|] == ts;
  }

  /** One metric of the second phase: scan the models for every question number. */
  method BestForMetricLoop(ms: Models, tables: seq<map<int, Scores>>, data: seq<QuestionInfo>, metric: Metric, e: real, c: real)
      returns (best: map<int, (string, real)>)
    requires |tables| == |ms|
    requires forall i :: 0 <= i < |ms| ==> tables[i] == ModelQuestionScores(ms[i].1, QuestionMap(data), e, c)
    ensures best == BestForMetric(ms, data, metric, e, c)
  {
    var qmap := QuestionMap(data);
    var numbers := Values(qmap);
    best := map[];
    for k := 0 to |numbers|
      invariant forall q :: q in best <==> ms != [] && q in numbers[..k]
      invariant forall q :: q in best ==> best[q] == Leader(QuestionColumn(ms, qmap, q, metric, e, c))
    {
      var q := numbers[k];
      assert forall x :: x in numbers[..k + 1] <==> x in numbers[..k] || x == q;
      var column := ColumnOf(ms, tables, qmap, q, metric, e, c);
      var winner := ScanBest(column);
      if winner.Some? {
        best := best[q := winner.value];
      }
    }
    assert numbers[..|numbers|] == numbers;
    BestForMetricOf(ms, data, metric, e, c, best);
  }

  /** A map with exactly the listed question numbers (when there are models), each holding its leader, is `BestForMetric`. */
  lemma BestForMetricOf(ms: Models, data: seq<QuestionInfo>, metric: Metric, e: real, c: real, best: map<int, (string, real)>)
    requires forall q :: q in best <==> ms != [] && q in Values(QuestionMap(data))
    requires forall q :: q in best ==> best[q] == Leader(QuestionColumn(ms, QuestionMap(data), q, metric, e, c))
    ensures best == BestForMetric(ms, data, metric, e, c)
  {
    var qmap := QuestionMap(data);
    if ms == [] {
      assert forall q :: q !in best;
      assert best == map[];
    } else {
      var spec := map q | q in Values(qmap) :: Leader(QuestionColumn(ms, qmap, q, metric, e, c));
      assert spec == BestForMetric(ms, data, metric, e, c);
      forall q | q in best
        ensures q in spec && best[q] == spec[q]
      {
      }
      forall q | q in spec
        ensures q in best
      {
      }
      assert best == spec;
    }
  }

  /** The scores of every model for one question under one metric, read from the tables. */
  method ColumnOf(ms: Models, tables: seq<map<int, Scores>>, qmap: Dict<int>, q: int, metric: Metric, e: real, c: real)
      returns (col: seq<(string, real)>)
    requires |tables| == |ms|
    requires forall i :: 0 <= i < |ms| ==> tables[i] == ModelQuestionScores(ms[i].1, qmap, e, c)
    ensures col == QuestionColumn(ms, qmap, q, metric, e, c)
  {
    col := [];
    for i := 0 to |ms|
      invariant col == QuestionColumn(ms[..i], qmap, q, metric, e, c)
    {
      assert ms[..i + 1][..i] == ms[..i];
      col := col + [(ms[i].0, Pick(ScoresAt(tables[i], q), metric))];
    }
    assert ms[..|ms|] == ms;
  }

  /** `get_best_models_per_question(results, questions_data, e, c)`. */
  method GetBestModelsPerQuestion(results: ResultsDoc, data: seq<QuestionInfo>, e: real, c: real)
      returns (best: ByMetric<map<int, (string, real)>>)
    requires results.models.Some? && ModelsScored(results.models.value)
    ensures best == BestPerQuestion(results.models.value, data, e, c)
  {
    var ms := results.models.value;
    var qmap := QuestionMap(data);
    var tables: seq<map<int, Scores>> := [];
    for i := 0 to |ms|
      invariant |tables| == i
      invariant forall j :: 0 <= j < i ==> tables[j] == ModelQuestionScores(ms[j].1, qmap, e, c)
    {
      var table := ModelScoresPerQuestion(ms[i].1, qmap, e, c);
      tables := tables + [table];
    }
    var emb := BestForMetricLoop(ms, tables, data, Embedding, e, c);
    var coh := BestForMetricLoop(ms, tables, data, Coherence, e, c);
    var ans := BestForMetricLoop(ms, tables, data, AnswerCount, e, c);
    best := ByMetric(emb, coh, ans);
  }

  /**
   * With at least one model, every listed question number gets an entry, held by a model of
   * the file whose score is the greatest and beaten by no earlier model; with no model, no
   * question gets one.
   */
  lemma BestForMetricSpec(ms: Models, data: seq<QuestionInfo>, metric: Metric, e: real, c: real, q: int)
    ensures var best := BestForMetric(ms, data, metric, e, c);
      var col := QuestionColumn(ms, QuestionMap(data), q, metric, e, c);
      && (q in best <==> ms != [] && q in Values(QuestionMap(data)))
      && (q in best ==>
            (exists i :: 0 <= i < |ms| && best[q] == col[i] && col[i].0 == ms[i].0
              && (forall j :: 0 <= j < |ms| ==> col[j].1 <= best[q].1)
              && (forall j :: 0 <= j < i ==> col[j].1 < best[q].1)))
  {
    var qmap := QuestionMap(data);
    var best := BestForMetric(ms, data, metric, e, c);
    var col := QuestionColumn(ms, qmap, q, metric, e, c);
    if ms == [] {
      assert best == map[];
    } else {
      assert q in best <==> q in Values(qmap);
      if q in best {
        assert best[q] == Leader(col);
        QuestionColumnNames(ms, qmap, q, metric, e, c);
        LeaderOfColumn(col, ms);
      }
    }
  }

  /** The leader of a column of model scores is some model's entry: the first with the top score. */
  lemma LeaderOfColumn(col: seq<(string, real)>, ms: Models)
    requires |col| == |ms| > 0
    requires forall i :: 0 <= i < |ms| ==> col[i].0 == ms[i].0
    ensures exists i :: (0 <= i < |ms| && Leader(col) == col[i] && col[i].0 == ms[i].0
                         && (forall j :: 0 <= j < |ms| ==> col[j].1 <= Leader(col).1)
                         && (forall j :: 0 <= j < i ==> col[j].1 < Leader(col).1))
  {
    var i := FirstMax(col);
    assert Leader(col) == col[i];
  }

  /** The names in a question's column are the model names, in order. */
  lemma {:induction false} QuestionColumnNames(ms: Models, qmap: Dict<int>, q: int, metric: Metric, e: real, c: real)
    ensures forall i :: 0 <= i < |ms| ==> QuestionColumn(ms, qmap, q, metric, e, c)[i].0 == ms[i].0
  {
    if ms != [] {
      QuestionColumnNames(ms[..|ms| - 1], qmap, q, metric, e, c);
    }
  }

  // ---------------------------------------------------------------------------
  // get_max_scores

  /** The hard-coded starting scores (answer counts only) of three models. */
  const Seeds: Dict<Scores> := [
    ("openai/o3-mini-high", ByMetric(0.0, 0.0, 4936.0)),
    ("openai/o3-mini-medium", ByMetric(0.0, 0.0, 3401.0)),
    ("openai/o3-mini-low", ByMetric(0.0, 0.0, 2354.0))]

  /** All passing answers of a temperature group, over every question. */
  function GroupPassSum(qs: Questions, e: real, c: real): Metrics {
    if qs == [] then NoMetrics else Plus(GroupPassSum(qs[..|qs| - 1], e, c), PassSum(qs[|qs| - 1].1, e, c))
  }

  /** `start` raised by the totals of each temperature group in turn. */
  function FoldMax(start: Scores, ts: Temps, e: real, c: real): Scores {
    if ts == [] then start else MaxScores(FoldMax(start, ts[..|ts| - 1], e, c), Totals(GroupPassSum(ts[|ts| - 1].1, e, c)))
  }

  /** The whole result of `get_max_scores` after the given models. */
  function MaxScoresTable(ms: Models, e: real, c: real): Dict<Scores> {
    if ms == [] then Seeds
    else
      var prev := MaxScoresTable(ms[..|ms| - 1], e, c);
      var name := ms[|ms| - 1].0;
      Put(prev, name, FoldMax(Get(prev, name).GetOr(ZeroScores), ms[|ms| - 1].1, e, c))
  }

  /** One temperature group's totals over all its questions. */
  method GroupTotals(qs: Questions, e: real, c: real) returns (m: Metrics)
    requires QuestionsScored(qs)
    ensures m == GroupPassSum(qs, e, c)
  {
    m := NoMetrics;
    for k := 0 to |qs|
      invariant m == GroupPassSum(qs[..k], e, c)
    {
      assert qs[..k + 1][..k] == qs[..k];
      m := AddPassing(m, qs[k].1, e, c);
    }
    assert qs[..|qs|] == qs;
  }

  /** `get_max_scores(results, e, c)`. */
  method GetMaxScores(results: ResultsDoc, e: real, c: real) returns (table: Dict<Scores>)
    requires results.models.Some? && ModelsScored(results.models.value)
    ensures table == MaxScoresTable(results.models.value, e, c)
  {
    var ms := results.models.value;
    table := Seeds;
    for i := 0 to |ms|
      invariant table == MaxScoresTable(ms[..i], e, c)
    {
      var name, ts := ms[i].0, ms[i].1;
      var prev := table;
      if Get(table, name).None? {
        PutGet(table, name, ZeroScores, name);
        table := Put(table, name, ZeroScores);
      }
      var start := Get(table, name).value;
      assert start == Get(prev, name).GetOr(ZeroScores);
      var scores := ModelMax(start, ts, e, c);
      if Get(prev, name).None? {
        PutTwice(prev, name, ZeroScores, scores);
      }
      table := Put(table, name, scores);
      assert table == Put(prev, name, scores);
      MaxScoresTableStep(ms, i, e, c);
    }
    assert ms[..|ms|] == ms;
  }

  /** One more model in `get_max_scores`: its entry raised from its current one (0 when new). */
  lemma MaxScoresTableStep(ms: Models, i: nat, e: real, c: real)
    requires i < |ms|
    ensures var prev := MaxScoresTable(ms[..i], e, c);
      MaxScoresTable(ms[..i + 1], e, c) == Put(prev, ms[i].0, FoldMax(Get(prev, ms[i].0).GetOr(ZeroScores), ms[i].1, e, c))
  {
    assert ms[..i + 1][..i] == ms[..i];
  }

  /** The temperature loop of `get_max_scores` for one model. */
  method ModelMax(start: Scores, ts: Temps, e: real, c: real) returns (scores: Scores)
    requires TempsScored(ts)
    ensures scores == FoldMax(start, ts, e, c)
  {
    scores := start;
    for g := 0 to |ts|
      invariant scores == FoldMax(start, ts[..g], e, c)
    {
      assert ts[..g + 1][..g] == ts[..g];
      var m := GroupTotals(ts[g].1, e, c);
      scores := MaxScores(scores, Totals(m));
    }
    assert ts[..|ts|] == ts;
  }

  /** Raising by each group gives at least the start and at least every group's totals, and is one of those. */
  lemma {:induction false} FoldMaxBounds(start: Scores, ts: Temps, e: real, c: real, metric: Metric)
    ensures Pick(start, metric) <= Pick(FoldMax(start, ts, e, c), metric)
    ensures forall g :: 0 <= g < |ts| ==> Pick(Totals(GroupPassSum(ts[g].1, e, c)), metric) <= Pick(FoldMax(start, ts, e, c), metric)
    ensures Pick(FoldMax(start, ts, e, c), metric) == Pick(start, metric)
      || exists g :: 0 <= g < |ts| && Pick(FoldMax(start, ts, e, c), metric) == Pick(Totals(GroupPassSum(ts[g].1, e, c)), metric)
  {
    if ts != [] {
      var p := ts[..|ts| - 1];
      FoldMaxBounds(start, p, e, c, metric);
      assert forall g :: 0 <= g < |p| ==> p[g] == ts[g];
    }
  }

  /** The seeded models never drop below their seeded scores. */
  lemma {:induction false} MaxScoresKeepSeeds(ms: Models, e: real, c: real, k: string, seed: Scores)
    requires Get(Seeds, k) == Some(seed)
    ensures Get(MaxScoresTable(ms, e, c), k).Some?
    ensures forall metric :: Pick(seed, metric) <= Pick(Get(MaxScoresTable(ms, e, c), k).value, metric)
  {
    if ms != [] {
      var prev := MaxScoresTable(ms[..|ms| - 1], e, c);
      var name, ts := ms[|ms| - 1].0, ms[|ms| - 1].1;
      MaxScoresKeepSeeds(ms[..|ms| - 1], e, c, k, seed);
      var start := Get(prev, name).GetOr(ZeroScores);
      PutGet(prev, name, FoldMax(start, ts, e, c), k);
      if name == k {
        forall metric ensures Pick(start, metric) <= Pick(FoldMax(start, ts, e, c), metric) {
          FoldMaxBounds(start, ts, e, c, metric);
        }
      }
    }
  }

  /**
   * Every model of the file has an entry that is at least the totals of each of its
   * temperature groups.
   */
  lemma {:induction false} MaxScoresCoverGroups(ms: Models, e: real, c: real, i: nat, g: nat, metric: Metric)
    requires DistinctKeys(ms) && i < |ms| && g < |ms[i].1|
    ensures Get(MaxScoresTable(ms, e, c), ms[i].0).Some?
    ensures Pick(Totals(GroupPassSum(ms[i].1[g].1, e, c)), metric) <= Pick(Get(MaxScoresTable(ms, e, c), ms[i].0).value, metric)
  {
    var p := ms[..|ms| - 1];
    var prev := MaxScoresTable(p, e, c);
    var name, ts := ms[|ms| - 1].0, ms[|ms| - 1].1;
    var start := Get(prev, name).GetOr(ZeroScores);
    PutGet(prev, name, FoldMax(start, ts, e, c), ms[i].0);
    if i == |ms| - 1 {
      FoldMaxBounds(start, ts, e, c, metric);
    } else {
      assert ms[i] == p[i];
      assert DistinctKeys(p);
      MaxScoresCoverGroups(p, e, c, i, g, metric);
    }
  }

  /** `question_map` holds a normalized text exactly when some question normalizes to it. */
  lemma QuestionMapHas(data: seq<QuestionInfo>, k: string)
    ensures Get(QuestionMap(data), k).Some? <==> exists i :: 0 <= i < |data| && QuestionEntries(data)[i].0 == k
  {
    PutAllKeys([], QuestionEntries(data));
    assert k in Keys(QuestionEntries(data)) <==> exists i :: 0 <= i < |data| && QuestionEntries(data)[i].0 == k;
  }

  /** The number `question_map` holds for a text is that of the last question normalizing to it. */
  lemma QuestionMapLast(data: seq<QuestionInfo>, i: nat)
    requires i < |data|
    requires forall j :: i < j < |data| ==> NormalizeText(data[j].question) != NormalizeText(data[i].question)
    ensures Get(QuestionMap(data), NormalizeText(data[i].question)) == Some(data[i].number)
  {
    PutAllLast([], QuestionEntries(data), i);
  }
}
