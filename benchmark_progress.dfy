/**
 * benchmark/benchmark_progress.py: for every model of the model list and every stored
 * temperature, count the questions whose run has terminated, judged from the last stored
 * answer, and collect the (model, temperature, question) triples that have not.
 */
module BenchmarkProgress {
  import opened Wrappers
  import opened Dicts
  import opened Store

  /** The `thresholds` dictionary. */
  datatype Limits = Limits(coherence: real, embedding: real, llm: real)

  /**
   * The last answer can be classified without a missing key: its coherence is present, and
   * its embedding score too whenever the coherence test alone does not decide.
   */
  predicate Classifiable(a: Answer, t: Limits) {
    a.coherence.Some? && (a.coherence.value > t.coherence ==> a.embeddingDissimilarity.Some?)
  }

  /** Every question of the group has at least one answer, and its last one is classifiable. */
  predicate QuestionsReady(qs: Questions, t: Limits) {
    forall i :: 0 <= i < |qs| ==> |qs[i].1| > 0 && Classifiable(qs[i].1[|qs[i].1| - 1], t)
  }

  predicate TempsReady(ts: Temps, t: Limits) {
    forall i :: 0 <= i < |ts| ==> QuestionsReady(ts[i].1, t)
  }

  /**
   * A run has terminated when its last answer is at or below a threshold: coherence, or
   * embedding dissimilarity, or an LLM dissimilarity that is present. The tests are tried in
   * that order and stop at the first that holds.
   */
  predicate Completed(last: Answer, t: Limits)
    requires Classifiable(last, t)
  {
    last.coherence.value <= t.coherence
    || last.embeddingDissimilarity.value <= t.embedding
    || (last.llmDissimilarity.Some? && last.llmDissimilarity.value <= t.llm)
  }

  /** Number of terminated runs of one temperature group. */
  function CompletedIn(qs: Questions, t: Limits): nat
    requires QuestionsReady(qs, t)
  {
    if qs == [] then 0
    else
      var q := qs[|qs| - 1];
      CompletedIn(qs[..|qs| - 1], t) + if Completed(q.1[|q.1| - 1], t) then 1 else 0
  }

  /** The unfinished (model, temperature, question) triples of one group, in question order. */
  function IncompleteIn(model: string, temp: string, qs: Questions, t: Limits): seq<(string, string, string)>
    requires QuestionsReady(qs, t)
  {
    if qs == [] then []
    else
      var q := qs[|qs| - 1];
      IncompleteIn(model, temp, qs[..|qs| - 1], t) + if Completed(q.1[|q.1| - 1], t) then [] else [(model, temp, q.0)]
  }

  /** Every question of a group is either terminated or listed as unfinished, never both. */
  lemma {:induction false} GroupPartition(model: string, temp: string, qs: Questions, t: Limits)
    requires QuestionsReady(qs, t)
    ensures CompletedIn(qs, t) + |IncompleteIn(model, temp, qs, t)| == |qs|
  {
    if qs != [] {
      GroupPartition(model, temp, qs[..|qs| - 1], t);
    }
  }

  /** The 50-cell progress bar: `bar_length` filled cells, then empty ones. */
  function Bar(barLength: int): (bar: string)
    requires 0 <= barLength <= 50
    ensures |bar| == 50
    ensures forall i :: 0 <= i < 50 ==> (bar[i] == '#' <==> i < barLength)
  {
    seq(barLength, _ => '#') + seq(50 - barLength, _ => '-')
  }

  /** One printed line per (model, temperature). */
  datatype TempRow = TempRow(model: string, temp: string, completed: nat, total: nat, percentage: real, barLength: int)

  /** `(completed / total) * 100`, or 0 when there is nothing to complete. */
  function Percentage(completed: nat, total: nat): (p: real)
    requires completed <= total
    ensures total == 0 ==> p == 0.0
    ensures 0.0 <= p <= 100.0
    ensures total > 0 && completed == total ==> p == 100.0
  {
    if total == 0 then 0.0
    else
      assert completed as real / total as real <= 1.0 by {
        assert completed as real <= total as real;
      }
      (completed as real / total as real) * 100.0
  }

  /** The line of one temperature group. */
  function Row(model: string, temp: string, qs: Questions, t: Limits): (r: TempRow)
    requires QuestionsReady(qs, t)
    ensures r.total == |qs|
    ensures r.completed + |IncompleteIn(model, temp, qs, t)| == r.total
    ensures 0.0 <= r.percentage <= 100.0
    ensures 0 <= r.barLength <= 50
  {
    GroupPartition(model, temp, qs, t);
    var c := CompletedIn(qs, t);
    var p := Percentage(c, |qs|);
    TempRow(model, temp, c, |qs|, p, (p / 2.0).Floor)
  }

  function TempsRows(model: string, ts: Temps, t: Limits): seq<TempRow>
    requires TempsReady(ts, t)
  {
    if ts == [] then []
    else TempsRows(model, ts[..|ts| - 1], t) + [Row(model, ts[|ts| - 1].0, ts[|ts| - 1].1, t)]
  }

  function TempsIncomplete(model: string, ts: Temps, t: Limits): seq<(string, string, string)>
    requires TempsReady(ts, t)
  {
    if ts == [] then []
    else TempsIncomplete(model, ts[..|ts| - 1], t) + IncompleteIn(model, ts[|ts| - 1].0, ts[|ts| - 1].1, t)
  }

  /** The precondition of the whole report: every listed model's stored groups are ready. */
  predicate Ready(modelList: seq<string>, models: Models, t: Limits) {
    forall m :: m in modelList ==> TempsReady(Get(models, m).GetOr([]), t)
  }

  /** Rows for the listed models, in list order; a model with no results adds none. */
  function ModelsRows(modelList: seq<string>, models: Models, t: Limits): seq<TempRow>
    requires Ready(modelList, models, t)
  {
    if modelList == [] then []
    else
      var m := modelList[|modelList| - 1];
      ModelsRows(modelList[..|modelList| - 1], models, t) + TempsRows(m, Get(models, m).GetOr([]), t)
  }

  function ModelsIncomplete(modelList: seq<string>, models: Models, t: Limits): seq<(string, string, string)>
    requires Ready(modelList, models, t)
  {
    if modelList == [] then []
    else
      var m := modelList[|modelList| - 1];
      ModelsIncomplete(modelList[..|modelList| - 1], models, t) + TempsIncomplete(m, Get(models, m).GetOr([]), t)
  }

  function RowsTotal(rows: seq<TempRow>): nat {
    if rows == [] then 0 else RowsTotal(rows[..|rows| - 1]) + rows[|rows| - 1].total
  }

  function RowsCompleted(rows: seq<TempRow>): nat {
    if rows == [] then 0 else RowsCompleted(rows[..|rows| - 1]) + rows[|rows| - 1].completed
  }

  /** What `visualize_progress` prints, as data. */
  datatype Progress = Progress(
    rows: seq<TempRow>,
    totalQuestions: nat,
    completedQuestions: nat,
    overall: real,
    incomplete: seq<(string, string, string)>)

  /** The inner loop: classify the questions of one temperature group. */
  method ClassifyGroup(model: string, temp: string, qs: Questions, t: Limits)
    returns (completed: nat, incomplete: seq<(string, string, string)>)
    requires QuestionsReady(qs, t)
    ensures completed == CompletedIn(qs, t)
    ensures incomplete == IncompleteIn(model, temp, qs, t)
  {
    completed, incomplete := 0, [];
    var i := 0;
    while i < |qs|
      invariant 0 <= i <= |qs|
      invariant QuestionsReady(qs[..i], t)
      invariant completed == CompletedIn(qs[..i], t)
      invariant incomplete == IncompleteIn(model, temp, qs[..i], t)
    {
      assert qs[..i + 1][..i] == qs[..i];
      var answers := qs[i].1;
      var last := answers[|answers| - 1];
      if Completed(last, t) {
        completed := completed + 1;
      } else {
        incomplete := incomplete + [(model, temp, qs[i].0)];
      }
      i := i + 1;
    }
    assert qs[..i] == qs;
  }

  /** Totals over two runs of rows add up. */
  lemma {:induction false} RowsSumsAppend(a: seq<TempRow>, b: seq<TempRow>)
    ensures RowsTotal(a + b) == RowsTotal(a) + RowsTotal(b)
    ensures RowsCompleted(a + b) == RowsCompleted(a) + RowsCompleted(b)
    decreases |b|
  {
    if b == [] {
      assert a + b == a;
    } else {
      assert (a + b)[..|a + b| - 1] == a + b[..|b| - 1];
      RowsSumsAppend(a, b[..|b| - 1]);
    }
  }

  /** The middle loop: one model's temperature groups. */
  method ReportModel(model: string, temps: Temps, t: Limits)
    returns (rows: seq<TempRow>, total: nat, completed: nat, incomplete: seq<(string, string, string)>)
    requires TempsReady(temps, t)
    ensures rows == TempsRows(model, temps, t)
    ensures incomplete == TempsIncomplete(model, temps, t)
    ensures total == RowsTotal(rows) && completed == RowsCompleted(rows)
    ensures completed + |incomplete| == total
  {
    rows, total, completed, incomplete := [], 0, 0, [];
    var j := 0;
    while j < |temps|
      invariant 0 <= j <= |temps|
      invariant TempsReady(temps[..j], t)
      invariant rows == TempsRows(model, temps[..j], t)
      invariant incomplete == TempsIncomplete(model, temps[..j], t)
      invariant total == RowsTotal(rows) && completed == RowsCompleted(rows)
      invariant completed + |incomplete| == total
    {
      assert temps[..j + 1][..j] == temps[..j];
      var (temp, questions) := temps[j];
      var modelCompleted, newIncomplete := ClassifyGroup(model, temp, questions, t);
      GroupPartition(model, temp, questions, t);
      total := total + |questions|;
      completed := completed + modelCompleted;
      incomplete := incomplete + newIncomplete;
      rows := rows + [Row(model, temp, questions, t)];
      j := j + 1;
    }
    assert temps[..j] == temps;
  }

  /** One more listed model adds its own rows and missing runs after those of the models before it. */
  lemma ModelsStep(modelList: seq<string>, models: Models, t: Limits, i: nat)
    requires i < |modelList| && Ready(modelList, models, t)
    ensures Ready(modelList[..i + 1], models, t)
    ensures TempsReady(Get(models, modelList[i]).GetOr([]), t)
    ensures ModelsRows(modelList[..i + 1], models, t)
      == ModelsRows(modelList[..i], models, t) + TempsRows(modelList[i], Get(models, modelList[i]).GetOr([]), t)
    ensures ModelsIncomplete(modelList[..i + 1], models, t)
      == ModelsIncomplete(modelList[..i], models, t) + TempsIncomplete(modelList[i], Get(models, modelList[i]).GetOr([]), t)
  {
    assert modelList[..i + 1][..i] == modelList[..i];
    assert forall m :: m in modelList[..i + 1] ==> m in modelList;
  }

  /**
   * `visualize_progress`: the per-temperature rows, the overall counters and the unfinished
   * triples. Overall, every counted question is either completed or listed as unfinished.
   */
  method VisualizeProgress(modelList: seq<string>, models: Models, t: Limits) returns (p: Progress)
    requires Ready(modelList, models, t)
    ensures p.rows == ModelsRows(modelList, models, t)
    ensures p.incomplete == ModelsIncomplete(modelList, models, t)
    ensures p.totalQuestions == RowsTotal(p.rows)
    ensures p.completedQuestions == RowsCompleted(p.rows)
    ensures p.completedQuestions + |p.incomplete| == p.totalQuestions
    ensures 0.0 <= p.overall <= 100.0
  {
    var rows: seq<TempRow> := [];
    var total, completed := 0, 0;
    var incomplete: seq<(string, string, string)> := [];
    var i := 0;
    while i < |modelList|
      invariant 0 <= i <= |modelList|
      invariant Ready(modelList[..i], models, t)
      invariant rows == ModelsRows(modelList[..i], models, t)
      invariant incomplete == ModelsIncomplete(modelList[..i], models, t)
      invariant total == RowsTotal(rows) && completed == RowsCompleted(rows)
      invariant completed + |incomplete| == total
    {
      var model := modelList[i];
      var temps := Get(models, model).GetOr([]);
      ModelsStep(modelList, models, t, i);
      if temps == [] {
        assert rows + TempsRows(model, temps, t) == rows;
        assert incomplete + TempsIncomplete(model, temps, t) == incomplete;
        i := i + 1;
        continue;
      }
      var mRows, mTotal, mCompleted, mIncomplete := ReportModel(model, temps, t);
      RowsSumsAppend(rows, mRows);
      rows, total, completed := rows + mRows, total + mTotal, completed + mCompleted;
      incomplete := incomplete + mIncomplete;
      i := i + 1;
    }
    assert modelList[..i] == modelList;
    p := Progress(rows, total, completed, Percentage(completed, total), incomplete);
  }

  /** A model missing from the results, or stored with no temperature, adds no row and no triple. */
  lemma NoResultsNoRows(modelList: seq<string>, m: string, models: Models, t: Limits)
    requires Ready(modelList, models, t)
    requires Get(models, m).GetOr([]) == []
    ensures Ready(modelList + [m], models, t)
    ensures ModelsRows(modelList + [m], models, t) == ModelsRows(modelList, models, t)
    ensures ModelsIncomplete(modelList + [m], models, t) == ModelsIncomplete(modelList, models, t)
  {
    var l := modelList + [m];
    assert l[..|l| - 1] == modelList;
  }
}
