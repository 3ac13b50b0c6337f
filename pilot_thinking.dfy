/**
 * pilot_thinking_experiment.py: a small grid of model pairs, two questions and two time
 * limits, run in nested loops that append exactly one record per test, a failed one
 * included. The service is an input: `service(k)` is what the k-th test's model call and
 * judge call gave, counting tests in loop order from 0.
 */
module PilotThinking {
  import opened Wrappers
  import opened Strings
  import opened ExperimentCommon

  const ModelPairs: seq<ModelPair> := [
    ("anthropic/claude-3.7-sonnet", Some("anthropic/claude-3.7-sonnet:thinking")),
    ("anthropic/claude-3.5-sonnet", None),
    ("openai/gpt-4o-2024-08-06", Some("openai/o1-preview")),
    ("openai/chatgpt-4o-latest", Some("openai/o1")),
    ("openai/gpt-4o-mini-2024-07-18", Some("openai/o1-mini")),
    ("google/gemini-2.0-flash-exp", Some("google/gemini-2.0-flash-thinking-exp-1219")),
    ("x-ai/grok-3-beta", None),
    ("meta-llama/llama-3.3-70b-instruct", None)]

  const TimeLimits: seq<Option<int>> := [Some(300), None]

  /** `(question_style, question)` pairs. */
  const TestQuestions: seq<(string, string)> := [
    ("creative_invention", "Invent a new musical instrument and describe how it would be played."),
    ("divergent_thinking", "What activities might I include at a party for firefighters?")]

  /** `total_tests`: the models of all pairs, times the questions, times the time limits. */
  function TotalTests(pairs: seq<ModelPair>, questions: seq<(string, string)>, limits: seq<Option<int>>): nat {
    ModelTotal(pairs) * (|questions| * |limits|)
  }

  /** The pilot design: 13 models, so 52 tests. */
  lemma DesignSize()
    ensures ModelTotal(ModelPairs) == 13
    ensures TotalTests(ModelPairs, TestQuestions, TimeLimits) == 52
  {
    var ps := ModelPairs;
    assert ModelTotal(ps[..0]) == 0;
    assert ps[..1][..0] == ps[..0]; assert ModelTotal(ps[..1]) == 2;
    assert ps[..2][..1] == ps[..1]; assert ModelTotal(ps[..2]) == 3;
    assert ps[..3][..2] == ps[..2]; assert ModelTotal(ps[..3]) == 5;
    assert ps[..4][..3] == ps[..3]; assert ModelTotal(ps[..4]) == 7;
    assert ps[..5][..4] == ps[..4]; assert ModelTotal(ps[..5]) == 9;
    assert ps[..6][..5] == ps[..5]; assert ModelTotal(ps[..6]) == 11;
    assert ps[..7][..6] == ps[..6]; assert ModelTotal(ps[..7]) == 12;
    assert ps[..8][..7] == ps[..7]; assert ps[..8] == ps;
  }

  /** `'thinking'` when the id, as given, mentions thinking or o1; no lower-casing here. */
  function ModelType(model: string): (r: string)
    ensures r == "thinking" || r == "standard"
    ensures r == "thinking" <==> Contains(model, "thinking") || Contains(model, "o1")
  {
    if Includes(model, "thinking") || Includes(model, "o1") then "thinking" else "standard"
  }

  // ---------------------------------------------------------------------------
  // The grid, in loop order: pair, question, model of the pair, time limit

  datatype Condition = Condition(model: string, style: string, question: string, timeout: Option<int>)

  function LimitConds(model: string, style: string, question: string, limits: seq<Option<int>>): (r: seq<Condition>)
    ensures |r| == |limits|
    ensures forall i :: 0 <= i < |limits| ==> r[i].model == model && r[i].question == question && r[i].timeout == limits[i]
  {
    seq(|limits|, i requires 0 <= i < |limits| => Condition(model, style, question, limits[i]))
  }

  function ModelConds(models: seq<string>, style: string, question: string, limits: seq<Option<int>>): (r: seq<Condition>)
  {
    if models == [] then []
    else
      ModelConds(models[..|models| - 1], style, question, limits) + LimitConds(models[|models| - 1], style, question, limits)
  }

  function QuestionConds(models: seq<string>, questions: seq<(string, string)>, limits: seq<Option<int>>): (r: seq<Condition>)
  {
    if questions == [] then []
    else
      var (style, question) := questions[|questions| - 1];
      QuestionConds(models, questions[..|questions| - 1], limits) + ModelConds(models, style, question, limits)
  }

  /** Every test of the pilot, in the order the loops run them. */
  function PilotConds(pairs: seq<ModelPair>, questions: seq<(string, string)>, limits: seq<Option<int>>): (r: seq<Condition>)
  {
    if pairs == [] then []
    else
      PilotConds(pairs[..|pairs| - 1], questions, limits) + QuestionConds(PairModels(pairs[|pairs| - 1]), questions, limits)
  }

  lemma {:induction false} ModelCondsLength(models: seq<string>, style: string, question: string, limits: seq<Option<int>>)
    ensures |ModelConds(models, style, question, limits)| == |models| * |limits|
  {
    if models != [] {
      var p := models[..|models| - 1];
      ModelCondsLength(p, style, question, limits);
      MulAdd(|p|, 1, |limits|);
    }
  }

  lemma {:induction false} QuestionCondsLength(models: seq<string>, questions: seq<(string, string)>, limits: seq<Option<int>>)
    ensures |QuestionConds(models, questions, limits)| == |models| * (|questions| * |limits|)
  {
    if questions != [] {
      var p := questions[..|questions| - 1];
      var (style, question) := questions[|questions| - 1];
      QuestionCondsLength(models, p, limits);
      ModelCondsLength(models, style, question, limits);
      var perModel := |p| * |limits|;
      MulAdd(|p|, 1, |limits|);
      assert perModel + |limits| == |questions| * |limits|;
      MulDist(|models|, perModel, |limits|);
    }
  }

  /** The pilot runs `total_tests` tests. */
  lemma {:induction false} PilotCondsLength(pairs: seq<ModelPair>, questions: seq<(string, string)>, limits: seq<Option<int>>)
    ensures |PilotConds(pairs, questions, limits)| == TotalTests(pairs, questions, limits)
  {
    if pairs != [] {
      var p := pairs[..|pairs| - 1];
      var models := PairModels(pairs[|pairs| - 1]);
      var perModel := |questions| * |limits|;
      PilotCondsLength(p, questions, limits);
      QuestionCondsLength(models, questions, limits);
      assert |PilotConds(pairs, questions, limits)| == ModelTotal(p) * perModel + |models| * perModel;
      assert ModelTotal(pairs) == ModelTotal(p) + |models|;
      MulAdd(ModelTotal(p), |models|, perModel);
    }
  }

  /** `a * k + b * k == (a + b) * k`. */
  lemma MulAdd(a: nat, b: nat, k: nat)
    ensures a * k + b * k == (a + b) * k
  {
  }

  /** `k * (a + b) == k * a + k * b`. */
  lemma MulDist(k: nat, a: nat, b: nat)
    ensures k * (a + b) == k * a + k * b
  {
  }

  // ---------------------------------------------------------------------------
  // One test

  /** What one test's model call gave and, if it was consulted, what the judge gave. */
  datatype Response = Response(call: Result<Reply>, judge: Result<int>)

  datatype Outcome =
    | TimedOut(processingTime: real, answer: string)
    | Judged(processingTime: real, answer: string, coherence: int)
    | Errored(message: string)

  datatype PilotResult = PilotResult(
    model: string, modelType: string, question: string, questionStyle: string,
    timeout: Option<int>, timeoutLabel: string, outcome: Outcome)

  /** The stored `coherence`: 0 for a timed-out test, absent from an error record. */
  function Coherence(r: PilotResult): Option<int> {
    match r.outcome
    case TimedOut(_, _) => Some(0)
    case Judged(_, _, c) => Some(c)
    case Errored(_) => None
  }

  /** `answer_length`, which only a record with an answer carries. */
  function AnswerLength(r: PilotResult): Option<nat> {
    match r.outcome
    case TimedOut(_, a) => Some(|a|)
    case Judged(_, a, _) => Some(|a|)
    case Errored(_) => None
  }

  /**
   * The body of the innermost loop: the model call, then the judge unless the call timed
   * out; either one raising gives the error record instead.
   */
  function RunOne(c: Condition, resp: Response): (r: PilotResult)
    ensures r.model == c.model && r.question == c.question && r.questionStyle == c.style
    ensures r.timeout == c.timeout && r.timeoutLabel == TimeoutLabel(c.timeout) && r.modelType == ModelType(c.model)
    ensures r.outcome.Errored? <==> resp.call.Failure? || (!resp.call.value.timedOut && resp.judge.Failure?)
    ensures r.outcome.TimedOut? <==> resp.call.Success? && resp.call.value.timedOut
    ensures r.outcome.Judged? ==> r.outcome.coherence == resp.judge.value && r.outcome.answer == resp.call.value.content
  {
    var status :=
      match resp.call
      case Failure(e) => Errored(e)
      case Success(reply) =>
        if reply.timedOut then TimedOut(reply.processingTime, reply.content)
        else
          match resp.judge
          case Failure(e) => Errored(e)
          case Success(score) => Judged(reply.processingTime, reply.content, score);
    PilotResult(c.model, ModelType(c.model), c.question, c.style, c.timeout, TimeoutLabel(c.timeout), status)
  }

  /** A timed-out test scores 0 whatever the judge would have said. */
  lemma TimedOutScoresZero(c: Condition, reply: Reply, j1: Result<int>, j2: Result<int>)
    requires reply.timedOut
    ensures RunOne(c, Response(Success(reply), j1)) == RunOne(c, Response(Success(reply), j2))
    ensures Coherence(RunOne(c, Response(Success(reply), j1))) == Some(0)
  {
  }

  /** The records of the tests `conds`, the first of them being test number `start`. */
  function Results(conds: seq<Condition>, start: nat, service: nat -> Response): (r: seq<PilotResult>)
    ensures |r| == |conds|
    ensures forall k :: 0 <= k < |conds| ==>
      r[k].model == conds[k].model && r[k].question == conds[k].question && r[k].timeout == conds[k].timeout
  {
    seq(|conds|, k requires 0 <= k < |conds| => RunOne(conds[k], service(start + k)))
  }

  lemma ResultsAppend(c1: seq<Condition>, c2: seq<Condition>, start: nat, service: nat -> Response)
    ensures Results(c1 + c2, start, service) == Results(c1, start, service) + Results(c2, start + |c1|, service)
  {
    var a, b := Results(c1 + c2, start, service), Results(c1, start, service) + Results(c2, start + |c1|, service);
    forall k | 0 <= k < |c1| ensures a[k] == b[k] {
      assert (c1 + c2)[k] == c1[k];
    }
    forall k | |c1| <= k < |a| ensures a[k] == b[k] {
      var j := k - |c1|;
      assert (c1 + c2)[k] == c2[j] && start + |c1| + j == start + k;
      assert b[k] == Results(c2, start + |c1|, service)[j];
    }
  }

  // ---------------------------------------------------------------------------
  // One pass of each loop of `run_pilot_experiment` appends the records of its tests

  lemma RunLimitsStep(model: string, style: string, question: string, limits: seq<Option<int>>, i: nat,
                      start: nat, service: nat -> Response, results: seq<PilotResult>, r: PilotResult)
    requires i < |limits|
    requires results == Results(LimitConds(model, style, question, limits[..i]), start, service)
    requires r == RunOne(Condition(model, style, question, limits[i]), service(start + i))
    ensures results + [r] == Results(LimitConds(model, style, question, limits[..i + 1]), start, service)
  {
    var c := Condition(model, style, question, limits[i]);
    var before, after := LimitConds(model, style, question, limits[..i]), LimitConds(model, style, question, limits[..i + 1]);
    assert after == before + [c] by {
      forall k | 0 <= k < |after| ensures after[k] == (before + [c])[k] {
        assert limits[..i + 1][k] == if k < i then limits[..i][k] else limits[i];
      }
    }
    ResultsAppend(before, [c], start, service);
    assert Results([c], start + |before|, service) == [r];
  }

  lemma RunModelsStep(models: seq<string>, style: string, question: string, limits: seq<Option<int>>, m: nat,
                      start: nat, service: nat -> Response, results: seq<PilotResult>, more: seq<PilotResult>)
    requires m < |models|
    requires results == Results(ModelConds(models[..m], style, question, limits), start, service)
    requires more == Results(LimitConds(models[m], style, question, limits), start + |results|, service)
    ensures results + more == Results(ModelConds(models[..m + 1], style, question, limits), start, service)
  {
    assert models[..m + 1][..m] == models[..m];
    ResultsAppend(ModelConds(models[..m], style, question, limits), LimitConds(models[m], style, question, limits), start, service);
  }

  lemma RunQuestionsStep(models: seq<string>, questions: seq<(string, string)>, limits: seq<Option<int>>, q: nat,
                         start: nat, service: nat -> Response, results: seq<PilotResult>, more: seq<PilotResult>)
    requires q < |questions|
    requires results == Results(QuestionConds(models, questions[..q], limits), start, service)
    requires more == Results(ModelConds(models, questions[q].0, questions[q].1, limits), start + |results|, service)
    ensures results + more == Results(QuestionConds(models, questions[..q + 1], limits), start, service)
  {
    assert questions[..q + 1][..q] == questions[..q];
    ResultsAppend(QuestionConds(models, questions[..q], limits), ModelConds(models, questions[q].0, questions[q].1, limits), start, service);
  }

  lemma RunPilotStep(pairs: seq<ModelPair>, questions: seq<(string, string)>, limits: seq<Option<int>>, p: nat,
                     service: nat -> Response, results: seq<PilotResult>, more: seq<PilotResult>)
    requires p < |pairs|
    requires results == Results(PilotConds(pairs[..p], questions, limits), 0, service)
    requires more == Results(QuestionConds(PairModels(pairs[p]), questions, limits), |results|, service)
    ensures results + more == Results(PilotConds(pairs[..p + 1], questions, limits), 0, service)
  {
    var before, next := PilotConds(pairs[..p], questions, limits), QuestionConds(PairModels(pairs[p]), questions, limits);
    PilotCondsStep(pairs, questions, limits, p);
    ResultsAppendAt(before, next, PilotConds(pairs[..p + 1], questions, limits), 0, service, results, more);
  }

  /** The records of `all == c1 + c2` are those of `c1` followed by those of `c2`, numbered on. */
  lemma ResultsAppendAt(c1: seq<Condition>, c2: seq<Condition>, all: seq<Condition>, start: nat,
                        service: nat -> Response, r1: seq<PilotResult>, r2: seq<PilotResult>)
    requires all == c1 + c2
    requires r1 == Results(c1, start, service) && r2 == Results(c2, start + |r1|, service)
    ensures r1 + r2 == Results(all, start, service)
  {
    ResultsAppend(c1, c2, start, service);
  }

  lemma PilotCondsStep(pairs: seq<ModelPair>, questions: seq<(string, string)>, limits: seq<Option<int>>, p: nat)
    requires p < |pairs|
    ensures PilotConds(pairs[..p + 1], questions, limits)
      == PilotConds(pairs[..p], questions, limits) + QuestionConds(PairModels(pairs[p]), questions, limits)
  {
    assert pairs[..p + 1][..p] == pairs[..p];
  }

  // ---------------------------------------------------------------------------
  // The loops of `run_pilot_experiment`, innermost first

  /** The time-limit loop for one model and question. */
  method RunLimits(model: string, style: string, question: string, limits: seq<Option<int>>, start: nat, service: nat -> Response)
    returns (results: seq<PilotResult>, completed: nat)
    ensures results == Results(LimitConds(model, style, question, limits), start, service)
    ensures completed == |results|
  {
    results, completed := [], 0;
    for i := 0 to |limits|
      invariant results == Results(LimitConds(model, style, question, limits[..i]), start, service)
      invariant completed == i
    {
      var r := RunOne(Condition(model, style, question, limits[i]), service(start + i));
      RunLimitsStep(model, style, question, limits, i, start, service, results, r);
      results := results + [r];
      completed := completed + 1;
    }
    assert limits[..|limits|] == limits;
  }

  /** The loop over the models of a pair, for one question. */
  method RunModels(models: seq<string>, style: string, question: string, limits: seq<Option<int>>, start: nat, service: nat -> Response)
    returns (results: seq<PilotResult>, completed: nat)
    ensures results == Results(ModelConds(models, style, question, limits), start, service)
    ensures completed == |results|
  {
    results, completed := [], 0;
    for m := 0 to |models|
      invariant results == Results(ModelConds(models[..m], style, question, limits), start, service)
      invariant completed == |results|
    {
      var more, n := RunLimits(models[m], style, question, limits, start + completed, service);
      RunModelsStep(models, style, question, limits, m, start, service, results, more);
      results := results + more;
      completed := completed + n;
    }
    assert models[..|models|] == models;
  }

  /** The question loop for one pair. */
  method RunQuestions(models: seq<string>, questions: seq<(string, string)>, limits: seq<Option<int>>, start: nat, service: nat -> Response)
    returns (results: seq<PilotResult>, completed: nat)
    ensures results == Results(QuestionConds(models, questions, limits), start, service)
    ensures completed == |results|
  {
    results, completed := [], 0;
    for q := 0 to |questions|
      invariant results == Results(QuestionConds(models, questions[..q], limits), start, service)
      invariant completed == |results|
    {
      var more, n := RunModels(models, questions[q].0, questions[q].1, limits, start + completed, service);
      RunQuestionsStep(models, questions, limits, q, start, service, results, more);
      results := results + more;
      completed := completed + n;
    }
    assert questions[..|questions|] == questions;
  }

  /**
   * `run_pilot_experiment`'s loops: every test gives exactly one record, so `completed`
   * ends equal both to the number of records and to `total_tests`. Printing, saving and
   * the averages of the summary are not modelled.
   */
  method RunPilot(pairs: seq<ModelPair>, questions: seq<(string, string)>, limits: seq<Option<int>>, service: nat -> Response)
    returns (results: seq<PilotResult>, completed: nat)
    ensures results == Results(PilotConds(pairs, questions, limits), 0, service)
    ensures completed == |results| == TotalTests(pairs, questions, limits)
  {
    results, completed := [], 0;
    for p := 0 to |pairs|
      invariant results == Results(PilotConds(pairs[..p], questions, limits), 0, service)
      invariant completed == |results|
    {
      var more, n := RunQuestions(PairModels(pairs[p]), questions, limits, completed, service);
      RunPilotStep(pairs, questions, limits, p, service, results, more);
      results := results + more;
      completed := completed + n;
    }
    assert pairs[..|pairs|] == pairs;
    PilotCondsLength(pairs, questions, limits);
  }

  // ---------------------------------------------------------------------------
  // The summary's partition

  /** `successful_tests`: neither an error nor a timeout. */
  function Successful(results: seq<PilotResult>): (r: seq<PilotResult>)
    ensures forall x :: x in r <==> x in results && x.outcome.Judged?
  {
    if results == [] then []
    else
      var p := results[..|results| - 1];
      var x := results[|results| - 1];
      assert results == p + [x];
      var s := Successful(p);
      if x.outcome.Judged? then s + [x] else s
  }

  /** `timeout_tests`. */
  function TimeoutTests(results: seq<PilotResult>): (r: seq<PilotResult>)
    ensures forall x :: x in r <==> x in results && x.outcome.TimedOut?
  {
    if results == [] then []
    else
      var p := results[..|results| - 1];
      var x := results[|results| - 1];
      assert results == p + [x];
      var s := TimeoutTests(p);
      if x.outcome.TimedOut? then s + [x] else s
  }

  /** `error_tests`. */
  function ErrorTests(results: seq<PilotResult>): (r: seq<PilotResult>)
    ensures forall x :: x in r <==> x in results && x.outcome.Errored?
  {
    if results == [] then []
    else
      var p := results[..|results| - 1];
      var x := results[|results| - 1];
      assert results == p + [x];
      var s := ErrorTests(p);
      if x.outcome.Errored? then s + [x] else s
  }

  /** The three lists split the records: each record lands in exactly one of them. */
  lemma {:induction false} PartitionCounts(results: seq<PilotResult>)
    ensures |Successful(results)| + |TimeoutTests(results)| + |ErrorTests(results)| == |results|
    ensures multiset(Successful(results)) + multiset(TimeoutTests(results)) + multiset(ErrorTests(results)) == multiset(results)
  {
    if results != [] {
      var p, x := results[..|results| - 1], results[|results| - 1];
      PartitionCounts(p);
      assert results == p + [x];
      assert Successful(results) == if x.outcome.Judged? then Successful(p) + [x] else Successful(p);
      assert TimeoutTests(results) == if x.outcome.TimedOut? then TimeoutTests(p) + [x] else TimeoutTests(p);
      assert ErrorTests(results) == if x.outcome.Errored? then ErrorTests(p) + [x] else ErrorTests(p);
    }
  }
}
