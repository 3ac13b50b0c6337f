/**
 * analyze_token_usage.py: reads a results file in one of its layouts, brings every answer
 * to one flat record, measures each answer's length, estimates its tokens at four
 * characters per token, and groups the answers by `model_question` scenario.
 */
module TokenUsage {
  import opened Wrappers
  import opened Dicts
  import opened Store
  import Seqs

  /** `estimate_tokens`: 0 for empty text, otherwise the length over 4 (true division). */
  function EstimateTokens(text: string): (r: real)
    ensures r * 4.0 == |text| as real
    ensures r == 0.0 <==> text == []
  {
    if text == [] then 0.0 else |text| as real / 4.0
  }

  /** A text-valued key of a record: absent, present but `null`, or a string. */
  datatype TextField = Missing | Null | Text(value: string)

  /** The flat record the analysis reads; each key may be absent. */
  datatype Row = Row(
    model: Option<string>,
    temperature: Option<string>,
    question: Option<string>,
    answer: TextField,
    response: TextField,
    answerLength: Option<int>,
    answerNum: Option<int>,
    processingTime: Option<real>,
    coherence: Option<real>,
    timedOut: Option<bool>)

  /**
   * The layouts `analyze_results_file` accepts: a top-level list, or an object with a
   * `results` list, a `models` map, or else some keys holding lists (`lists`, in key order).
   */
  datatype Doc =
    | ListDoc(rows: seq<Row>)
    | ObjectDoc(results: Option<seq<Row>>, models: Option<Models>, lists: seq<seq<Row>>)

  /** One stored answer in the uniform format; `answer` defaults to `''`, `answer_num` to 1. */
  function ToRow(model: string, temp: string, question: string, a: Answer): Row {
    var text := a.text.GetOr("");
    Row(Some(model), Some(temp), Some(question), Text(text), Missing, Some(|text|),
        Some(a.answerNum.GetOr(1)), Some(a.processingTime.GetOr(0.0)), Some(a.coherence.GetOr(0.0)), None)
  }

  /** The rows of one question's answers, in list order. */
  function FlatAnswers(model: string, temp: string, question: string, answers: seq<Answer>): (r: seq<Row>)
    ensures |r| == |answers|
    ensures forall j :: 0 <= j < |answers| ==> r[j] == ToRow(model, temp, question, answers[j])
  {
    seq(|answers|, j requires 0 <= j < |answers| => ToRow(model, temp, question, answers[j]))
  }

  /** The rows of one temperature group: one per stored answer. */
  function FlatQuestions(model: string, temp: string, qs: Questions): (r: seq<Row>)
    ensures |r| == QuestionsSize(qs)
  {
    if qs == [] then []
    else FlatQuestions(model, temp, qs[..|qs| - 1]) + FlatAnswers(model, temp, qs[|qs| - 1].0, qs[|qs| - 1].1)
  }

  /** The rows of one model: one per stored answer. */
  function FlatTemps(model: string, ts: Temps): (r: seq<Row>)
    ensures |r| == TempsSize(ts)
  {
    if ts == [] then [] else FlatTemps(model, ts[..|ts| - 1]) + FlatQuestions(model, ts[|ts| - 1].0, ts[|ts| - 1].1)
  }

  /** Number of answers stored in a `models` map. */
  function ModelsSize(ms: Models): nat {
    if ms == [] then 0 else ModelsSize(ms[..|ms| - 1]) + TempsSize(ms[|ms| - 1].1)
  }

  /** The converted `results` list of the `models` layout: exactly one row per stored answer. */
  function FlatModels(ms: Models): (r: seq<Row>)
    ensures |r| == ModelsSize(ms)
  {
    if ms == [] then [] else FlatModels(ms[..|ms| - 1]) + FlatTemps(ms[|ms| - 1].0, ms[|ms| - 1].1)
  }

  function RowCount(rows: seq<Row>): int { |rows| }

  /**
   * The lists of the fallback layout, one after the other (`results.extend(value)`): as many
   * rows as the lists hold together, and the rows of the lists in list order (`ConcatAppend`).
   */
  function Concat(lists: seq<seq<Row>>): (r: seq<Row>)
    ensures forall x :: x in r <==> exists i :: 0 <= i < |lists| && x in lists[i]
    ensures |r| == Seqs.Sum(lists, RowCount)
  {
    if lists == [] then []
    else
      var r := Concat(lists[..|lists| - 1]) + lists[|lists| - 1];
      assert forall i :: 0 <= i < |lists| - 1 ==> lists[..|lists| - 1][i] == lists[i];
      r
  }

  /** Two runs of lists give their rows in turn: the rows keep the order of their lists. */
  lemma {:induction false} ConcatAppend(a: seq<seq<Row>>, b: seq<seq<Row>>)
    ensures Concat(a + b) == Concat(a) + Concat(b)
    decreases |b|
  {
    if b == [] {
      assert a + b == a;
    } else {
      var q := b[..|b| - 1];
      assert (a + b)[..|a + b| - 1] == a + q;
      ConcatAppend(a, q);
    }
  }

  /** The `results` list the analysis works on, by layout: `results` wins over `models`. */
  function Rows(doc: Doc): seq<Row> {
    match doc
    case ListDoc(rows) => rows
    case ObjectDoc(results, models, lists) =>
      if results.Some? then results.value
      else if models.Some? then FlatModels(models.value)
      else Concat(lists)
  }

  /** The text of a text-valued key; `null` reads as empty. */
  function TextOf(f: TextField): string {
    if f.Text? then f.value else ""
  }

  /** The measured text: `answer` if the key is present, else `response`, else none. */
  function AnswerText(r: Row): string {
    if !r.answer.Missing? then TextOf(r.answer)
    else if !r.response.Missing? then TextOf(r.response)
    else ""
  }

  /** The measured length: of `answer` if present, else of `response`, else `answer_length`, else 0. */
  function AnswerLen(r: Row): (n: int)
    ensures !r.answer.Missing? ==> n == |TextOf(r.answer)|
    ensures r.answer.Missing? && !r.response.Missing? ==> n == |TextOf(r.response)|
    ensures r.answer.Missing? && r.response.Missing? ==> n == r.answerLength.GetOr(0)
    ensures AnswerText(r) != [] ==> n == |AnswerText(r)|
  {
    if !r.answer.Missing? || !r.response.Missing? then |AnswerText(r)|
    else r.answerLength.GetOr(0)
  }

  /** `"x" * n`: empty for `n <= 0`. */
  function Repeat(c: char, n: int): (s: string)
    ensures |s| == if n <= 0 then 0 else n
    decreases if n <= 0 then 0 else n
  {
    if n <= 0 then [] else Repeat(c, n - 1) + [c]
  }

  /** `estimate_tokens(answer_text or "x" * answer_len)`. */
  function RowTokens(r: Row): real {
    var text := AnswerText(r);
    EstimateTokens(if text != [] then text else Repeat('x', AnswerLen(r)))
  }

  /** A row's token estimate is its measured length over 4, and 0 when that is not positive. */
  lemma RowTokensOfLength(r: Row)
    ensures RowTokens(r) == if AnswerLen(r) > 0 then AnswerLen(r) as real / 4.0 else 0.0
  {
    var text := AnswerText(r);
    var n := AnswerLen(r);
    if text != [] {
      assert n == |text|;
    } else {
      assert |Repeat('x', n)| == if n <= 0 then 0 else n;
    }
  }

  /** A converted answer is measured by its own text. */
  lemma ConvertedLength(model: string, temp: string, question: string, a: Answer)
    ensures AnswerLen(ToRow(model, temp, question, a)) == |a.text.GetOr("")|
    ensures RowTokens(ToRow(model, temp, question, a)) == EstimateTokens(a.text.GetOr(""))
  {
  }

  /** The measured length of every row, in result order. */
  function AllLengths(rows: seq<Row>): (ls: seq<int>)
    ensures |ls| == |rows|
  {
    seq(|rows|, i requires 0 <= i < |rows| => AnswerLen(rows[i]))
  }

  /**
   * `answer_lengths`: the positive measured lengths, in result order; each positive length
   * appears as often as rows measure it, and nothing else appears.
   */
  function Lengths(rows: seq<Row>): (r: seq<int>)
    ensures |r| <= |rows|
    ensures forall i :: 0 <= i < |r| ==> r[i] > 0
    ensures forall n :: multiset(r)[n] == if n > 0 then multiset(AllLengths(rows))[n] else 0
    ensures Seqs.Subseq(r, AllLengths(rows))
  {
    if rows == [] then []
    else
      var q := rows[..|rows| - 1];
      var n := AnswerLen(rows[|rows| - 1]);
      var p := Lengths(q);
      assert AllLengths(rows) == AllLengths(q) + [n];
      if n > 0 then Seqs.SubseqKeep(p, AllLengths(q), n); p + [n]
      else Seqs.SubseqSkip(p, AllLengths(q), n); p
  }

  /** `token_estimates`: the estimates of the rows whose length entered `answer_lengths`. */
  function TokenEstimates(rows: seq<Row>): seq<real> {
    if rows == [] then []
    else
      var r := rows[|rows| - 1];
      if AnswerLen(r) > 0 then TokenEstimates(rows[..|rows| - 1]) + [RowTokens(r)] else TokenEstimates(rows[..|rows| - 1])
  }

  /** The two lists run side by side: each estimate is its length over 4. */
  lemma {:induction false} TokensMatchLengths(rows: seq<Row>)
    ensures |TokenEstimates(rows)| == |Lengths(rows)|
    ensures forall i :: 0 <= i < |Lengths(rows)| ==> TokenEstimates(rows)[i] == Lengths(rows)[i] as real / 4.0
  {
    if rows != [] {
      var p, r := rows[..|rows| - 1], rows[|rows| - 1];
      TokensMatchLengths(p);
      RowTokensOfLength(r);
    }
  }

  /** What a scenario group keeps of one result. */
  datatype Entry = Entry(length: int, tokens: real, answerNum: int, timeout: bool)

  function EntryOf(r: Row): Entry {
    Entry(AnswerLen(r), RowTokens(r), r.answerNum.GetOr(1), r.timedOut.GetOr(false))
  }

  /** The scenario key `"{model}_{question}"`, with `unknown` for a missing key. */
  function ScenarioKey(r: Row): string {
    r.model.GetOr("unknown") + "_" + r.question.GetOr("unknown")
  }

  /** `d[k].append(x)` on a `defaultdict(list)`. */
  function AddTo<T>(d: Dict<seq<T>>, k: string, x: T): Dict<seq<T>> {
    Put(d, k, Get(d, k).GetOr([]) + [x])
  }

  /** `scenario_answers` once the given results have been grouped. */
  function Groups(rows: seq<Row>): Dict<seq<Entry>> {
    if rows == [] then [] else AddTo(Groups(rows[..|rows| - 1]), ScenarioKey(rows[|rows| - 1]), EntryOf(rows[|rows| - 1]))
  }

  /** The entries of the results with scenario key `k`, in result order. */
  function EntriesFor(rows: seq<Row>, k: string): seq<Entry> {
    if rows == [] then []
    else
      var r := rows[|rows| - 1];
      if ScenarioKey(r) == k then EntriesFor(rows[..|rows| - 1], k) + [EntryOf(r)] else EntriesFor(rows[..|rows| - 1], k)
  }

  /** A scenario's group holds exactly the entries of its own results, in order; other keys have no group. */
  lemma {:induction false} GroupOf(rows: seq<Row>, k: string)
    ensures Get(Groups(rows), k) == if EntriesFor(rows, k) == [] then None else Some(EntriesFor(rows, k))
  {
    if rows != [] {
      var p, r := rows[..|rows| - 1], rows[|rows| - 1];
      GroupOf(p, k);
      var g := Groups(p);
      var key := ScenarioKey(r);
      PutGet(g, key, Get(g, key).GetOr([]) + [EntryOf(r)], k);
      if key == k {
        assert EntriesFor(rows, k) == EntriesFor(p, k) + [EntryOf(r)];
      }
    }
  }

  /** Total number of entries over all groups. */
  function GroupSizes<T>(d: Dict<seq<T>>): nat {
    if d == [] then 0 else |d[0].1| + GroupSizes(d[1..])
  }

  /** Replacing a group's list changes the total by the difference in length. */
  lemma {:induction false} PutSizes<T>(d: Dict<seq<T>>, k: string, v: seq<T>)
    ensures GroupSizes(Put(d, k, v)) + |Get(d, k).GetOr([])| == GroupSizes(d) + |v|
  {
    if d != [] && d[0].0 != k {
      PutSizes(d[1..], k, v);
    }
  }

  /** Every result lands in exactly one group: the group sizes sum to the number of results. */
  lemma {:induction false} GroupsCoverResults(rows: seq<Row>)
    ensures GroupSizes(Groups(rows)) == |rows|
  {
    if rows != [] {
      var p, r := rows[..|rows| - 1], rows[|rows| - 1];
      GroupsCoverResults(p);
      var g := Groups(p);
      PutSizes(g, ScenarioKey(r), Get(g, ScenarioKey(r)).GetOr([]) + [EntryOf(r)]);
    }
  }

  /** The groups are a dictionary: no scenario key occurs twice. */
  lemma {:induction false} GroupsDistinct(rows: seq<Row>)
    ensures DistinctKeys(Groups(rows))
  {
    if rows != [] {
      var p, r := rows[..|rows| - 1], rows[|rows| - 1];
      GroupsDistinct(p);
      var g := Groups(p);
      PutDistinct(g, ScenarioKey(r), Get(g, ScenarioKey(r)).GetOr([]) + [EntryOf(r)]);
    }
  }

  /** Every group's (scenario, answer count) pair, in group order. */
  function Sizes(groups: Dict<seq<Entry>>): (r: seq<(string, nat)>)
    ensures |r| == |groups|
  {
    seq(|groups|, i requires 0 <= i < |groups| => (groups[i].0, |groups[i].1|))
  }

  lemma SizesStep(groups: Dict<seq<Entry>>)
    requires groups != []
    ensures Sizes(groups) == Sizes(groups[..|groups| - 1]) + [(groups[|groups| - 1].0, |groups[|groups| - 1].1|)]
  {
  }

  /**
   * `long_scenarios`: the (scenario, answer count) pairs of the groups with 200 answers or
   * more, in group order, each as often as it occurs among the groups.
   */
  function LongScenarios(groups: Dict<seq<Entry>>): (r: seq<(string, nat)>)
    ensures forall k, n :: (k, n) in r <==> exists i :: 0 <= i < |groups| && groups[i].0 == k && |groups[i].1| == n && n >= 200
    ensures forall e :: multiset(r)[e] == if e.1 >= 200 then multiset(Sizes(groups))[e] else 0
    ensures Seqs.Subseq(r, Sizes(groups))
  {
    if groups == [] then []
    else
      var p, g := groups[..|groups| - 1], groups[|groups| - 1];
      var q := LongScenarios(p);
      var e := (g.0, |g.1|);
      SizesStep(groups);
      var r := if |g.1| >= 200 then q + [e] else q;
      LongStep(Sizes(p), e, q, r);
      LongMembers(groups, r);
      r
  }

  /** The pairs counted as long are exactly the long groups' pairs. */
  lemma LongMembers(groups: Dict<seq<Entry>>, r: seq<(string, nat)>)
    requires forall x :: multiset(r)[x] == if x.1 >= 200 then multiset(Sizes(groups))[x] else 0
    ensures forall k, n :: (k, n) in r <==> exists i :: 0 <= i < |groups| && groups[i].0 == k && |groups[i].1| == n && n >= 200
  {
    forall k, n ensures (k, n) in r <==> exists i :: 0 <= i < |groups| && groups[i].0 == k && |groups[i].1| == n && n >= 200 {
      assert (k, n) in r <==> multiset(r)[(k, n)] > 0;
      if (k, n) in r {
        var i :| 0 <= i < |groups| && Sizes(groups)[i] == (k, n);
      }
      if exists i :: 0 <= i < |groups| && groups[i].0 == k && |groups[i].1| == n && n >= 200 {
        var i :| 0 <= i < |groups| && groups[i].0 == k && |groups[i].1| == n && n >= 200;
        assert Sizes(groups)[i] == (k, n);
      }
    }
  }

  /** One more group's pair: kept when the group is long, skipped otherwise. */
  lemma LongStep(sizes: seq<(string, nat)>, e: (string, nat), q: seq<(string, nat)>, r: seq<(string, nat)>)
    requires forall x :: multiset(q)[x] == if x.1 >= 200 then multiset(sizes)[x] else 0
    requires Seqs.Subseq(q, sizes)
    requires r == if e.1 >= 200 then q + [e] else q
    ensures forall x :: multiset(r)[x] == if x.1 >= 200 then multiset(sizes + [e])[x] else 0
    ensures Seqs.Subseq(r, sizes + [e])
  {
    if e.1 >= 200 {
      Seqs.SubseqKeep(q, sizes, e);
    } else {
      Seqs.SubseqSkip(q, sizes, e);
    }
  }

  /**
   * The data the statistics are computed from: the lengths and token estimates, the
   * scenario groups (`total_scenarios` is their number) and the long scenarios.
   */
  datatype Analysis = Analysis(lengths: seq<int>, tokens: seq<real>, groups: Dict<seq<Entry>>, longScenarios: seq<(string, nat)>)

  /** What `analyze_results_file` computes for a parsed file; `None` when it gives up. */
  function AnalysisOf(doc: Doc): (r: Option<Analysis>)
    ensures r.None? <==> Rows(doc) == [] || Lengths(Rows(doc)) == []
    ensures r.Some? ==> r.value.lengths == Lengths(Rows(doc)) && r.value.groups == Groups(Rows(doc))
  {
    var rows := Rows(doc);
    if rows == [] || Lengths(rows) == [] then None
    else
      var groups := Groups(rows);
      Some(Analysis(Lengths(rows), TokenEstimates(rows), groups, LongScenarios(groups)))
  }

  /** The rows of one temperature group, built answer by answer. */
  method FlattenQuestions(model: string, temp: string, qs: Questions) returns (rows: seq<Row>)
    ensures rows == FlatQuestions(model, temp, qs)
  {
    rows := [];
    for i := 0 to |qs|
      invariant rows == FlatQuestions(model, temp, qs[..i])
    {
      var (question, answers) := qs[i];
      ghost var before := rows;
      for j := 0 to |answers|
        invariant rows == before + FlatAnswers(model, temp, question, answers[..j])
      {
        rows := rows + [ToRow(model, temp, question, answers[j])];
      }
      assert answers[..|answers|] == answers;
      assert qs[..i + 1][..i] == qs[..i];
    }
    assert qs[..|qs|] == qs;
  }

  /** The `models` branch of `analyze_results_file`: the four nested loops of the conversion. */
  method FlattenModels(ms: Models) returns (rows: seq<Row>)
    ensures rows == FlatModels(ms)
  {
    rows := [];
    for i := 0 to |ms|
      invariant rows == FlatModels(ms[..i])
    {
      var (model, ts) := ms[i];
      ghost var before := rows;
      for t := 0 to |ts|
        invariant rows == before + FlatTemps(model, ts[..t])
      {
        var part := FlattenQuestions(model, ts[t].0, ts[t].1);
        assert ts[..t + 1][..t] == ts[..t];
        rows := rows + part;
      }
      assert ts[..|ts|] == ts;
      assert ms[..i + 1][..i] == ms[..i];
    }
    assert ms[..|ms|] == ms;
  }

  /** The layout dispatch of `analyze_results_file`. */
  method LoadRows(doc: Doc) returns (rows: seq<Row>)
    ensures rows == Rows(doc)
  {
    match doc
    case ListDoc(rs) =>
      rows := rs;
    case ObjectDoc(results, models, lists) =>
      if results.Some? {
        rows := results.value;
      } else if models.Some? {
        rows := FlattenModels(models.value);
      } else {
        rows := [];
        for i := 0 to |lists|
          invariant rows == Concat(lists[..i])
        {
          assert lists[..i + 1][..i] == lists[..i];
          rows := rows + lists[i];
        }
        assert lists[..|lists|] == lists;
      }
  }

  /** `analyze_results_file` on an already parsed file; reading and printing are not modelled. */
  method AnalyzeResultsFile(doc: Doc) returns (r: Option<Analysis>)
    ensures r == AnalysisOf(doc)
  {
    var results := LoadRows(doc);
    if results == [] {
      return None;
    }
    var lengths: seq<int> := [];
    var tokens: seq<real> := [];
    var scenarios: Dict<seq<Entry>> := [];
    for i := 0 to |results|
      invariant lengths == Lengths(results[..i])
      invariant tokens == TokenEstimates(results[..i])
      invariant scenarios == Groups(results[..i])
    {
      var result := results[i];
      var len := AnswerLen(result);
      if len > 0 {
        lengths := lengths + [len];
        tokens := tokens + [RowTokens(result)];
      }
      scenarios := AddTo(scenarios, ScenarioKey(result), EntryOf(result));
      assert results[..i + 1][..i] == results[..i];
    }
    assert results[..|results|] == results;
    if lengths == [] {
      return None;
    }
    r := Some(Analysis(lengths, tokens, scenarios, LongScenarios(scenarios)));
  }

  // ---------------------------------------------------------------------------
  // main: the dataset the recommendations are drawn from

  /**
   * `all_stats`: every file that could be analysed, under its base name. A later file with
   * the same base name replaces the earlier entry and keeps its position.
   */
  function AllStats(files: seq<(string, Option<Doc>)>): Dict<Analysis> {
    if files == [] then []
    else
      var prev := AllStats(files[..|files| - 1]);
      var (name, doc) := files[|files| - 1];
      if doc.Some? && AnalysisOf(doc.value).Some? then Put(prev, name, AnalysisOf(doc.value).value) else prev
  }

  function AnswerCount(a: Analysis): nat { |a.lengths| }

  /**
   * The entry `main` takes as the most comprehensive dataset: the first with the most answers,
   * counted against a starting best of 0, so none when no entry has an answer.
   */
  function BestStats(stats: Dict<Analysis>): (r: Option<nat>)
    ensures r.Some? ==> r.value < |stats| && AnswerCount(stats[r.value].1) > 0
    ensures r.Some? ==> forall j :: 0 <= j < |stats| ==> AnswerCount(stats[j].1) <= AnswerCount(stats[r.value].1)
    ensures r.Some? ==> forall j :: 0 <= j < r.value ==> AnswerCount(stats[j].1) < AnswerCount(stats[r.value].1)
    ensures r.None? <==> forall j :: 0 <= j < |stats| ==> AnswerCount(stats[j].1) == 0
  {
    if stats == [] then None
    else
      var prev := BestStats(stats[..|stats| - 1]);
      var best := if prev.Some? then AnswerCount(stats[prev.value].1) else 0;
      if AnswerCount(stats[|stats| - 1].1) > best then Some(|stats| - 1) else prev
  }

  /** Every analysed file has at least one answer. */
  lemma {:induction false} AllStatsAnswered(files: seq<(string, Option<Doc>)>)
    ensures forall x :: x in AllStats(files) ==> AnswerCount(x.1) > 0
  {
    if files != [] {
      var init, last := files[..|files| - 1], files[|files| - 1];
      AllStatsAnswered(init);
      if last.1.Some? && AnalysisOf(last.1.value).Some? {
        var a := AnalysisOf(last.1.value).value;
        assert a.lengths != [];
        assert AllStats(files) == Put(AllStats(init), last.0, a);
        PutEntries(AllStats(init), last.0, a);
      } else {
        assert AllStats(files) == AllStats(init);
      }
    }
  }

  /** So `main` finds a dataset exactly when some file could be analysed. */
  lemma FoundExactlyWhenAnalysed(files: seq<(string, Option<Doc>)>)
    ensures BestStats(AllStats(files)).None? <==> AllStats(files) == []
  {
    AllStatsAnswered(files);
    var stats := AllStats(files);
    if stats != [] {
      assert stats[0] in stats;
    }
  }

  /**
   * The two loops of `main` on already parsed files (`None` where the file is missing or
   * unreadable): the statistics of each file, then the most comprehensive of them.
   */
  method SelectDataset(files: seq<(string, Option<Doc>)>) returns (allStats: Dict<Analysis>, best: Option<nat>)
    ensures allStats == AllStats(files)
    ensures best == BestStats(allStats)
  {
    allStats := [];
    for i := 0 to |files|
      invariant allStats == AllStats(files[..i])
    {
      var (name, doc) := files[i];
      if doc.Some? {
        var stats := AnalyzeResultsFile(doc.value);
        if stats.Some? {
          allStats := Put(allStats, name, stats.value);
        }
      }
      assert files[..i + 1][..i] == files[..i];
    }
    assert files[..|files|] == files;
    best := None;
    var bestCount := 0;
    for i := 0 to |allStats|
      invariant best == BestStats(allStats[..i])
      invariant bestCount == if best.Some? then AnswerCount(allStats[best.value].1) else 0
    {
      assert allStats[..i + 1][..i] == allStats[..i];
      if AnswerCount(allStats[i].1) > bestCount {
        bestCount := AnswerCount(allStats[i].1);
        best := Some(i);
      }
    }
    assert allStats[..|allStats|] == allStats;
  }
}
