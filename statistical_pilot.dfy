/**
 * statistical_pilot_experiment.py: every (model, question, time limit, replication)
 * condition is listed, the list is shuffled, and each condition is run once against the
 * model and judged. The service calls are inputs: `calls[k]` is what the k-th test's
 * model call returned (or the error it raised) and `judges[k]` the judge's score.
 */
module StatisticalPilot {
  import opened Wrappers
  import opened Strings
  import opened PlotText
  import opened ExperimentCommon
  import Seqs

  /** One planned test: `(model, question, style, timeout, rep)`. */
  datatype Condition = Condition(model: string, question: string, style: string, timeout: Option<int>, rep: nat)

  const ModelPairs: seq<ModelPair> := [
    ("openai/gpt-4o-mini-2024-07-18", Some("openai/o1-mini")),
    ("openai/gpt-4o-2024-08-06", Some("openai/o1-preview")),
    ("openai/chatgpt-4o-latest", Some("openai/o1")),
    ("anthropic/claude-3.5-sonnet", Some("anthropic/claude-3.7-sonnet:thinking")),
    ("anthropic/claude-3.7-sonnet", Some("anthropic/claude-3.7-sonnet:thinking")),
    ("google/gemini-2.0-flash-exp", None),
    ("google/gemini-pro-1.5", None),
    ("x-ai/grok-3-beta", None),
    ("meta-llama/llama-3.3-70b-instruct", None),
    ("mistralai/mistral-large-latest", None)]

  const QuestionsByStyle: seq<(string, seq<string>)> := [
    ("creative_invention", [
      "Invent a new musical instrument and describe how it would be played.",
      "Design a new color that doesn't exist and explain its properties.",
      "Create a new emotion that humans have never felt before.",
      "Invent a new sense organ and describe what it would detect.",
      "Design a revolutionary new sport that combines elements of three existing sports."]),
    ("practical_problems", [
      "Propose a solution to Los Angeles traffic.",
      "What might be an unexpected solution to reducing plastic waste in oceans?",
      "How could we redesign schools to better prepare students for the 22nd century?",
      "Design a system to fairly distribute limited medical resources.",
      "Create a plan to reduce political polarization in democracies."]),
    ("divergent_thinking", [
      "How might you use a brick and a blanket?",
      "What activities might I include at a party for firefighters?",
      "List unusual uses for a paper clip.",
      "What would you do with 1000 rubber ducks?",
      "How could you entertain yourself with only a piece of string?"]),
    ("analytical_reasoning", [
      "Explain why some businesses fail while others succeed.",
      "What factors contribute to the rise and fall of civilizations?",
      "Analyze the relationship between technology and human happiness.",
      "Why do some ideas spread rapidly while others don't?",
      "What makes some teams more effective than others?"]),
    ("hypothetical_scenarios", [
      "What would happen if gravity was 50% weaker on Earth?",
      "How would society change if humans could live to 500 years?",
      "What if we could communicate directly with animals?",
      "How would the world be different if photosynthesis was impossible?",
      "What if humans could perceive electromagnetic fields?"]),
    ("design_challenges", [
      "Design a revolutionary new transportation method for cities.",
      "Devise a method to prevent social media addiction.",
      "Create a new architectural style for climate change adaptation.",
      "Invent a new cooking technique using only household items.",
      "How would you redesign the internet to be more privacy-focused?"])]

  const TimeConditions: seq<Option<int>> := [Some(300), None]

  const Replications: nat := 3

  /** `sum(len(questions) for questions in questions_by_style.values())`. */
  function QuestionTotal(styles: seq<(string, seq<string>)>): nat {
    if styles == [] then 0 else QuestionTotal(styles[..|styles| - 1]) + |styles[|styles| - 1].1|
  }

  /** `total_tests`: models times questions times time conditions times replications. */
  function TotalTests(pairs: seq<ModelPair>, styles: seq<(string, seq<string>)>, conds: seq<Option<int>>, reps: nat): nat {
    ModelTotal(pairs) * (QuestionTotal(styles) * (|conds| * reps))
  }

  /** The design: 15 models, 30 questions, 2 time conditions, 3 replications. */
  lemma DesignSize()
    ensures ModelTotal(ModelPairs) == 15 && QuestionTotal(QuestionsByStyle) == 30
    ensures TotalTests(ModelPairs, QuestionsByStyle, TimeConditions, Replications) == 2700
  {
    var ps, qs := ModelPairs, QuestionsByStyle;
    assert ModelTotal(ps[..0]) == 0;
    assert ps[..1][..0] == ps[..0]; assert ModelTotal(ps[..1]) == 2;
    assert ps[..2][..1] == ps[..1]; assert ModelTotal(ps[..2]) == 4;
    assert ps[..3][..2] == ps[..2]; assert ModelTotal(ps[..3]) == 6;
    assert ps[..4][..3] == ps[..3]; assert ModelTotal(ps[..4]) == 8;
    assert ps[..5][..4] == ps[..4]; assert ModelTotal(ps[..5]) == 10;
    assert ps[..6][..5] == ps[..5]; assert ModelTotal(ps[..6]) == 11;
    assert ps[..7][..6] == ps[..6]; assert ModelTotal(ps[..7]) == 12;
    assert ps[..8][..7] == ps[..7]; assert ModelTotal(ps[..8]) == 13;
    assert ps[..9][..8] == ps[..8]; assert ModelTotal(ps[..9]) == 14;
    assert ps[..10][..9] == ps[..9]; assert ps[..10] == ps;
    assert QuestionTotal(qs[..0]) == 0;
    assert qs[..1][..0] == qs[..0]; assert QuestionTotal(qs[..1]) == 5;
    assert qs[..2][..1] == qs[..1]; assert QuestionTotal(qs[..2]) == 10;
    assert qs[..3][..2] == qs[..2]; assert QuestionTotal(qs[..3]) == 15;
    assert qs[..4][..3] == qs[..3]; assert QuestionTotal(qs[..4]) == 20;
    assert qs[..5][..4] == qs[..4]; assert QuestionTotal(qs[..5]) == 25;
    assert qs[..6][..5] == qs[..5]; assert qs[..6] == qs;
  }

  // ---------------------------------------------------------------------------
  // The condition grid, level by level, innermost first

  function RepConds(model: string, question: string, style: string, t: Option<int>, reps: nat): (r: seq<Condition>)
    ensures |r| == reps
    ensures forall k :: 0 <= k < reps ==> r[k] == Condition(model, question, style, t, k)
  {
    seq(reps, k requires 0 <= k < reps => Condition(model, question, style, t, k))
  }

  function TimeConds(model: string, question: string, style: string, conds: seq<Option<int>>, reps: nat): (r: seq<Condition>)
    ensures |r| == |conds| * reps
  {
    if conds == [] then []
    else
      var p := conds[..|conds| - 1];
      MulAdd(|p|, 1, reps);
      TimeConds(model, question, style, p, reps) + RepConds(model, question, style, conds[|conds| - 1], reps)
  }

  /** `a * k + b * k == (a + b) * k`. */
  lemma MulAdd(a: nat, b: nat, k: nat)
    ensures a * k + b * k == (a + b) * k
  {
  }

  function QuestionConds(model: string, style: string, qs: seq<string>, conds: seq<Option<int>>, reps: nat): (r: seq<Condition>)
    ensures |r| == |qs| * (|conds| * reps)
  {
    if qs == [] then []
    else
      var p := qs[..|qs| - 1];
      MulAdd(|p|, 1, |conds| * reps);
      QuestionConds(model, style, p, conds, reps) + TimeConds(model, qs[|qs| - 1], style, conds, reps)
  }

  function StyleConds(model: string, styles: seq<(string, seq<string>)>, conds: seq<Option<int>>, reps: nat): (r: seq<Condition>)
    ensures |r| == QuestionTotal(styles) * (|conds| * reps)
  {
    if styles == [] then []
    else
      var p := styles[..|styles| - 1];
      var (style, qs) := styles[|styles| - 1];
      MulAdd(QuestionTotal(p), |qs|, |conds| * reps);
      StyleConds(model, p, conds, reps) + QuestionConds(model, style, qs, conds, reps)
  }

  function ModelConds(models: seq<string>, styles: seq<(string, seq<string>)>, conds: seq<Option<int>>, reps: nat): (r: seq<Condition>)
    ensures |r| == |models| * (QuestionTotal(styles) * (|conds| * reps))
  {
    if models == [] then []
    else
      var p := models[..|models| - 1];
      MulAdd(|p|, 1, QuestionTotal(styles) * (|conds| * reps));
      ModelConds(p, styles, conds, reps) + StyleConds(models[|models| - 1], styles, conds, reps)
  }

  /**
   * `all_conditions` before shuffling: pair, model, style, question, time condition,
   * replication. It holds exactly `total_tests` conditions.
   */
  function AllConditions(pairs: seq<ModelPair>, styles: seq<(string, seq<string>)>, conds: seq<Option<int>>, reps: nat): (r: seq<Condition>)
    ensures |r| == TotalTests(pairs, styles, conds, reps)
  {
    if pairs == [] then []
    else
      var p := pairs[..|pairs| - 1];
      var models := PairModels(pairs[|pairs| - 1]);
      MulAdd(ModelTotal(p), |models|, QuestionTotal(styles) * (|conds| * reps));
      AllConditions(p, styles, conds, reps) + ModelConds(models, styles, conds, reps)
  }

  /** The two innermost loops: one condition per time condition and replication. */
  method QuestionTests(model: string, question: string, style: string, conds: seq<Option<int>>, reps: nat)
    returns (tests: seq<Condition>)
    ensures tests == TimeConds(model, question, style, conds, reps)
  {
    tests := [];
    for i := 0 to |conds|
      invariant tests == TimeConds(model, question, style, conds[..i], reps)
    {
      ghost var before := tests;
      for rep := 0 to reps
        invariant tests == before + RepConds(model, question, style, conds[i], rep)
      {
        tests := tests + [Condition(model, question, style, conds[i], rep)];
      }
      assert conds[..i + 1][..i] == conds[..i];
    }
    assert conds[..|conds|] == conds;
  }

  /** The question loop of one question style. */
  method StyleTests(model: string, style: string, qs: seq<string>, conds: seq<Option<int>>, reps: nat)
    returns (tests: seq<Condition>)
    ensures tests == QuestionConds(model, style, qs, conds, reps)
  {
    tests := [];
    for q := 0 to |qs|
      invariant tests == QuestionConds(model, style, qs[..q], conds, reps)
    {
      var more := QuestionTests(model, qs[q], style, conds, reps);
      assert qs[..q + 1][..q] == qs[..q];
      tests := tests + more;
    }
    assert qs[..|qs|] == qs;
  }

  /** The style and question loops for one model. */
  method ModelTests(model: string, styles: seq<(string, seq<string>)>, conds: seq<Option<int>>, reps: nat)
    returns (tests: seq<Condition>)
    ensures tests == StyleConds(model, styles, conds, reps)
  {
    tests := [];
    for s := 0 to |styles|
      invariant tests == StyleConds(model, styles[..s], conds, reps)
    {
      var more := StyleTests(model, styles[s].0, styles[s].1, conds, reps);
      assert styles[..s + 1][..s] == styles[..s];
      tests := tests + more;
    }
    assert styles[..|styles|] == styles;
  }

  /** The model loop for one pair. */
  method PairTests(models: seq<string>, styles: seq<(string, seq<string>)>, conds: seq<Option<int>>, reps: nat)
    returns (tests: seq<Condition>)
    ensures tests == ModelConds(models, styles, conds, reps)
  {
    tests := [];
    for m := 0 to |models|
      invariant tests == ModelConds(models[..m], styles, conds, reps)
    {
      var more := ModelTests(models[m], styles, conds, reps);
      assert models[..m + 1][..m] == models[..m];
      tests := tests + more;
    }
    assert models[..|models|] == models;
  }

  /** The nested loops of `run_experiment` that build `all_conditions`. */
  method BuildConditions(pairs: seq<ModelPair>, styles: seq<(string, seq<string>)>, conds: seq<Option<int>>, reps: nat)
    returns (all: seq<Condition>)
    ensures all == AllConditions(pairs, styles, conds, reps)
  {
    all := [];
    for p := 0 to |pairs|
      invariant all == AllConditions(pairs[..p], styles, conds, reps)
    {
      var more := PairTests(PairModels(pairs[p]), styles, conds, reps);
      assert pairs[..p + 1][..p] == pairs[..p];
      all := all + more;
    }
    assert pairs[..|pairs|] == pairs;
  }

  // ---------------------------------------------------------------------------
  // One test

  /** `'thinking'` when the lower-cased id mentions thinking, o1 or reasoning. */
  function ModelType(model: string): (r: string)
    ensures r == "thinking" || r == "standard"
    ensures r == "thinking" <==> Contains(Lower(model), "thinking") || Contains(Lower(model), "o1") || Contains(Lower(model), "reasoning")
  {
    var id := Lower(model);
    if Includes(id, "thinking") || Includes(id, "o1") || Includes(id, "reasoning") then "thinking" else "standard"
  }

  /** How a recorded test ended. */
  datatype Status =
    | TimedOut(processingTime: real, answer: string)
    | Judged(processingTime: real, answer: string, coherence: int)
    | Errored(message: string)

  /**
   * A recorded test. `styleKey` is the key the style is stored under: `question_style`
   * for a timed-out test, `question_category` otherwise.
   */
  datatype TestResult = TestResult(
    model: string, family: string, modelType: string, question: string, style: string, styleKey: string,
    timeout: Option<int>, timeoutLabel: string, replication: nat, status: Status)

  /** The stored coherence: 0 for a timed-out test, none for an error record. */
  function Coherence(r: TestResult): Option<int> {
    match r.status
    case TimedOut(_, _) => Some(0)
    case Judged(_, _, c) => Some(c)
    case Errored(_) => None
  }

  function Record(c: Condition, styleKey: string, status: Status): TestResult {
    TestResult(c.model, CompanyOf(c.model), ModelType(c.model), c.question, c.style, styleKey,
               c.timeout, TimeoutLabel(c.timeout), c.rep, status)
  }

  /**
   * `run_single_test` as written. Its error branch names a variable `category` that does
   * not exist, so a failing model or judge call ends in a NameError that leaves the method;
   * that is the `Failure` here.
   */
  function RunSingleTest(c: Condition, call: Result<Reply>, judge: Result<int>): (r: Result<TestResult>)
    ensures r.Failure? <==> call.Failure? || (!call.value.timedOut && judge.Failure?)
    ensures r.Success? ==> r.value.model == c.model && r.value.timeoutLabel == TimeoutLabel(c.timeout)
    ensures r.Success? && call.value.timedOut ==> r.value.status.TimedOut? && Coherence(r.value) == Some(0)
    ensures r.Success? && !call.value.timedOut ==> r.value.status == Judged(call.value.processingTime, call.value.content, judge.value)
  {
    match call
    case Failure(_) => Failure("NameError: name 'category' is not defined")
    case Success(reply) =>
      if reply.timedOut then Success(Record(c, "question_style", TimedOut(reply.processingTime, reply.content)))
      else
        match judge
        case Failure(_) => Failure("NameError: name 'category' is not defined")
        case Success(score) => Success(Record(c, "question_category", Judged(reply.processingTime, reply.content, score)))
  }

  /** A timed-out test never consults the judge: its outcome is the same whatever the judge says. */
  lemma TimedOutSkipsJudge(c: Condition, reply: Reply, j1: Result<int>, j2: Result<int>)
    requires reply.timedOut
    ensures RunSingleTest(c, Success(reply), j1) == RunSingleTest(c, Success(reply), j2)
  {
  }

  /**
   * `run_single_test` with the error branch storing the style it was given, as the other
   * branches do: every test gives a record, a failure one `Errored`.
   */
  function RunSingleTestCorrected(c: Condition, call: Result<Reply>, judge: Result<int>): (r: TestResult)
    ensures r.status.Errored? <==> call.Failure? || (!call.value.timedOut && judge.Failure?)
    ensures RunSingleTest(c, call, judge).Success? ==> r == RunSingleTest(c, call, judge).value
  {
    match call
    case Failure(e) => Record(c, "question_category", Errored(e))
    case Success(reply) =>
      if reply.timedOut then Record(c, "question_style", TimedOut(reply.processingTime, reply.content))
      else
        match judge
        case Failure(e) => Record(c, "question_category", Errored(e))
        case Success(score) => Record(c, "question_category", Judged(reply.processingTime, reply.content, score))
  }

  // ---------------------------------------------------------------------------
  // The run

  /** A planned test together with what its model call and its judge call gave. */
  datatype Trial = Trial(condition: Condition, call: Result<Reply>, judge: Result<int>)

  function Outcome(t: Trial): Result<TestResult> {
    RunSingleTest(t.condition, t.call, t.judge)
  }

  /** What each test gave, in order. */
  function Outcomes(trials: seq<Trial>): (r: seq<Result<TestResult>>)
    ensures |r| == |trials|
    ensures forall k :: 0 <= k < |trials| ==> r[k] == Outcome(trials[k])
  {
    seq(|trials|, k requires 0 <= k < |trials| => Outcome(trials[k]))
  }

  /** Outcomes taken in order until the first failure: the records kept and whether all were kept. */
  function KeepUntilFailure(outs: seq<Result<TestResult>>): (r: (seq<TestResult>, bool))
    ensures |r.0| <= |outs|
    ensures r.1 <==> |r.0| == |outs|
  {
    if outs == [] then ([], true)
    else
      var before := KeepUntilFailure(outs[..|outs| - 1]);
      var last := outs[|outs| - 1];
      if before.1 && last.Success? then (before.0 + [last.value], true) else (before.0, false)
  }

  /** The tests run in order until one raises: the records appended and whether every test ran. */
  function RunTests(trials: seq<Trial>): (r: (seq<TestResult>, bool))
    ensures |r.0| <= |trials|
    ensures r.1 <==> |r.0| == |trials|
  {
    KeepUntilFailure(Outcomes(trials))
  }

  /** Every record kept is the value of the outcome at its position, and that outcome succeeded. */
  lemma {:induction false} KeptPrefix(outs: seq<Result<TestResult>>)
    ensures forall k :: 0 <= k < |KeepUntilFailure(outs).0| ==> outs[k].Success? && KeepUntilFailure(outs).0[k] == outs[k].value
  {
    if outs != [] {
      var p := outs[..|outs| - 1];
      KeptPrefix(p);
      var kept, before := KeepUntilFailure(outs).0, KeepUntilFailure(p).0;
      forall k | 0 <= k < |kept| ensures outs[k].Success? && kept[k] == outs[k].value {
        if k < |before| {
          assert p[k] == outs[k];
          assert kept[k] == before[k];
        } else {
          assert kept == before + [outs[|outs| - 1].value];
        }
      }
    }
  }

  /** Keeping every outcome means none failed. */
  lemma {:induction false} CompleteRunSucceeds(outs: seq<Result<TestResult>>)
    requires KeepUntilFailure(outs).1
    ensures forall k :: 0 <= k < |outs| ==> outs[k].Success?
  {
    KeptPrefix(outs);
  }

  /** Stopping early means some outcome failed. */
  lemma {:induction false} IncompleteRunFails(outs: seq<Result<TestResult>>)
    requires !KeepUntilFailure(outs).1
    ensures exists k :: 0 <= k < |outs| && outs[k].Failure?
  {
    var p, last := outs[..|outs| - 1], outs[|outs| - 1];
    if KeepUntilFailure(p).1 {
      assert outs[|outs| - 1].Failure?;
    } else {
      IncompleteRunFails(p);
      var k :| 0 <= k < |p| && p[k].Failure?;
      assert outs[k] == p[k];
    }
  }

  /** A failing outcome at position k keeps at most the k records before it. */
  lemma {:induction false} FailureStops(outs: seq<Result<TestResult>>, k: nat)
    requires k < |outs| && outs[k].Failure?
    ensures |KeepUntilFailure(outs).0| <= k
  {
    KeptPrefix(outs);
  }

  /** A run that stops at position k keeps the same records as the run of the whole list. */
  lemma {:induction false} ExtendFails(outs: seq<Result<TestResult>>, k: nat)
    requires k < |outs|
    requires KeepUntilFailure(outs[..k]).1
    requires outs[k].Failure?
    ensures KeepUntilFailure(outs) == (KeepUntilFailure(outs[..k]).0, false)
    decreases |outs|
  {
    var p := outs[..|outs| - 1];
    if k < |p| {
      assert p[..k] == outs[..k] && p[k] == outs[k];
      ExtendFails(p, k);
    } else {
      assert p == outs[..k];
    }
  }

  /** One more succeeding outcome after an unbroken run is kept too. */
  lemma KeepStep(outs: seq<Result<TestResult>>, k: nat)
    requires k < |outs| && KeepUntilFailure(outs[..k]).1 && outs[k].Success?
    ensures KeepUntilFailure(outs[..k + 1]) == (KeepUntilFailure(outs[..k]).0 + [outs[k].value], true)
  {
    assert outs[..k + 1][..k] == outs[..k];
  }

  /** The run records every test exactly when no test raises. */
  lemma RunCompletes(trials: seq<Trial>)
    ensures RunTests(trials).1 <==> forall k :: 0 <= k < |trials| ==> Outcome(trials[k]).Success?
  {
    var outs := Outcomes(trials);
    if RunTests(trials).1 {
      CompleteRunSucceeds(outs);
    } else {
      IncompleteRunFails(outs);
    }
  }

  /** As written: once the k-th test's model call raises, no record is kept for it or any later test. */
  lemma FailedCallStopsRun(trials: seq<Trial>, k: nat)
    requires k < |trials| && trials[k].call.Failure?
    ensures |RunTests(trials).0| <= k
  {
    FailureStops(Outcomes(trials), k);
  }

  /** With the corrected error branch, every planned test is recorded, in order. */
  function RunTestsCorrected(trials: seq<Trial>): (r: seq<TestResult>)
    ensures |r| == |trials|
    ensures forall k :: 0 <= k < |trials| ==> r[k] == RunSingleTestCorrected(trials[k].condition, trials[k].call, trials[k].judge)
    ensures forall k :: 0 <= k < |trials| && trials[k].call.Failure? ==> r[k].status.Errored?
  {
    seq(|trials|, k requires 0 <= k < |trials| => RunSingleTestCorrected(trials[k].condition, trials[k].call, trials[k].judge))
  }

  /** Where the two runs agree: every record the run as written keeps is the corrected run's record. */
  lemma CorrectedExtendsRun(trials: seq<Trial>)
    ensures forall k :: 0 <= k < |RunTests(trials).0| ==> RunTests(trials).0[k] == RunTestsCorrected(trials)[k]
  {
    KeptPrefix(Outcomes(trials));
  }

  /** `[r for r in results if 'error' not in r and not r.get('timed_out', False)]`. */
  function Successful(results: seq<TestResult>): (r: seq<TestResult>)
    ensures |r| <= |results|
    ensures forall x :: x in r <==> x in results && x.status.Judged?
    ensures forall x :: multiset(r)[x] == if x.status.Judged? then multiset(results)[x] else 0
    ensures Seqs.Subseq(r, results)
  {
    if results == [] then []
    else
      var q := results[..|results| - 1];
      var p := Successful(q);
      var x := results[|results| - 1];
      assert results == q + [x];
      if x.status.Judged? then Seqs.SubseqKeep(p, q, x); p + [x]
      else Seqs.SubseqSkip(p, q, x); p
  }

  /** Every successful record keeps its style under `question_category`, not `question_style`. */
  lemma SuccessfulUseCategoryKey(c: Condition, call: Result<Reply>, judge: Result<int>)
    requires RunSingleTest(c, call, judge).Success?
    requires RunSingleTest(c, call, judge).value.status.Judged?
    ensures RunSingleTest(c, call, judge).value.styleKey == "question_category"
  {
  }

  function Sum(data: seq<real>): real {
    if data == [] then 0.0 else Sum(data[..|data| - 1]) + data[|data| - 1]
  }

  /** The t value `confidence_interval` uses: 1.96 from 30 values on, 2.0 below. */
  function TCritical(n: nat): real {
    if n >= 30 then 1.96 else 2.0
  }

  /**
   * `confidence_interval(data)`, with `standardError` standing for `stdev(data) / sqrt(n)`,
   * which is floating-point work outside this model. Fewer than two values give (0, 0).
   */
  function ConfidenceInterval(data: seq<real>, standardError: real): (r: (real, real))
    ensures |data| < 2 ==> r == (0.0, 0.0)
    ensures |data| >= 2 ==> (r.0 + r.1) / 2.0 == Sum(data) / |data| as real
    ensures |data| >= 2 && standardError >= 0.0 ==> r.0 <= Sum(data) / |data| as real <= r.1
  {
    if |data| < 2 then (0.0, 0.0)
    else
      var mean := Sum(data) / |data| as real;
      var margin := TCritical(|data|) * standardError;
      (mean - margin, mean + margin)
  }

  /** The experiment object: its design, the planned test count and the records so far. */
  class Experiment {
    var modelPairs: seq<ModelPair>
    var questionsByStyle: seq<(string, seq<string>)>
    var timeConditions: seq<Option<int>>
    var replications: nat
    var results: seq<TestResult>
    var totalTests: nat

    /** `total_tests` agrees with the design it was computed from. */
    predicate Valid()
      reads this
    {
      totalTests == TotalTests(modelPairs, questionsByStyle, timeConditions, replications)
    }

    /** `__init__`: the fixed design, no results, 2700 planned tests. */
    constructor()
      ensures Valid() && totalTests == 2700 && results == []
      ensures modelPairs == ModelPairs && questionsByStyle == QuestionsByStyle
      ensures timeConditions == TimeConditions && replications == Replications
    {
      modelPairs := ModelPairs;
      questionsByStyle := QuestionsByStyle;
      timeConditions := TimeConditions;
      replications := Replications;
      results := [];
      DesignSize();
      totalTests := ModelTotal(ModelPairs) * QuestionTotal(QuestionsByStyle) * |TimeConditions| * Replications;
    }

    /**
     * `run_experiment`: list the conditions, shuffle them with the given draws, then run
     * them in that order, `calls[k]` and `judges[k]` serving the k-th test. `raised` says
     * the NameError of a failing test ended the run; the records appended before it stay.
     * Saving, printing and the analysis are not modelled.
     */
    method RunExperiment(draws: seq<nat>, calls: seq<Result<Reply>>, judges: seq<Result<int>>)
      returns (completed: nat, raised: bool)
      requires Valid()
      requires ValidDraws(draws, totalTests)
      requires |calls| == totalTests && |judges| == totalTests
      modifies this
      ensures Valid() && totalTests == old(totalTests)
      ensures modelPairs == old(modelPairs) && questionsByStyle == old(questionsByStyle)
      ensures timeConditions == old(timeConditions) && replications == old(replications)
      ensures var order := Shuffled(AllConditions(modelPairs, questionsByStyle, timeConditions, replications), draws);
        var (done, ok) := RunTests(Trials(order, calls, judges));
        results == old(results) + done && raised == !ok
      ensures completed == |results| - |old(results)|
    {
      var all := BuildConditions(modelPairs, questionsByStyle, timeConditions, replications);
      var a := new Condition[|all|](i requires 0 <= i < |all| => all[i]);
      assert a[..] == all;
      Shuffle(a, draws);
      var order := a[..];
      completed, raised := RunInOrder(Trials(order, calls, judges));
    }

    /** The loop of `run_experiment` over the shuffled conditions. */
    method RunInOrder(trials: seq<Trial>) returns (completed: nat, raised: bool)
      modifies this
      ensures modelPairs == old(modelPairs) && questionsByStyle == old(questionsByStyle)
      ensures timeConditions == old(timeConditions) && replications == old(replications)
      ensures totalTests == old(totalTests)
      ensures results == old(results) + RunTests(trials).0 && raised == !RunTests(trials).1
      ensures completed == |RunTests(trials).0|
    {
      completed := 0;
      ghost var outs := Outcomes(trials);
      ghost var done: seq<TestResult> := [];
      var k := 0;
      while k < |trials|
        invariant 0 <= k <= |trials|
        invariant KeepUntilFailure(outs[..k]) == (done, true)
        invariant results == old(results) + done
        invariant completed == |done|
        invariant modelPairs == old(modelPairs) && questionsByStyle == old(questionsByStyle)
        invariant timeConditions == old(timeConditions) && replications == old(replications)
        invariant totalTests == old(totalTests)
      {
        var result := Outcome(trials[k]);
        assert outs[k] == result;
        if result.Failure? {
          ExtendFails(outs, k);
          return completed, true;
        }
        KeepStep(outs, k);
        results := results + [result.value];
        done := done + [result.value];
        completed := completed + 1;
        k := k + 1;
      }
      assert outs[..k] == outs;
      raised := false;
    }
  }

  /** The k-th planned test with its service outcomes. */
  function Trials(order: seq<Condition>, calls: seq<Result<Reply>>, judges: seq<Result<int>>): (r: seq<Trial>)
    requires |calls| == |order| && |judges| == |order|
    ensures |r| == |order|
    ensures forall k :: 0 <= k < |order| ==> r[k] == Trial(order[k], calls[k], judges[k])
  {
    seq(|order|, k requires 0 <= k < |order| => Trial(order[k], calls[k], judges[k]))
  }
}
