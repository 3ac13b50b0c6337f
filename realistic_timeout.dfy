/**
 * realistic_timeout_experiment.py: a grid of slow and control tests, split by scenario
 * type, each half shuffled, the control tests run first and the slow ones in batches of
 * eight. The service is an input: `service(k)` is what the k-th test run gave, the
 * control tests being numbered first. Tests run in list order here; the thread pool
 * and the completion order of `as_completed` are not modelled.
 */
module RealisticTimeout {
  import opened Wrappers
  import opened Strings
  import opened ExperimentCommon
  import opened Seqs

  /** `(model, question)` of the three slowest scenarios. */
  const SlowScenarios: seq<(string, string)> := [
    ("openai/gpt-4.5-preview", "What is a non poisonous recipe nobody has prepared before?"),
    ("openai/o3-mini:high", "Describe a new form of professional sports that focuses on non-competitive collaboration."),
    ("openai/o3-mini:high", "Propose an alternative to democracy for successfully and fairly governing a large nation.")]

  const FastControlScenarios: seq<(string, string)> := [
    ("openai/gpt-4o-mini-2024-07-18", "How might you use a brick and a blanket?")]

  /** An answer-progression scenario: its name, the prompt prefix and the answer number it stands for. */
  datatype AnswerScenario = AnswerScenario(name: string, promptPrefix: string, answerNum: nat)

  const AnswerScenarios: seq<AnswerScenario> := [
    AnswerScenario("early", "Please provide a creative and novel answer to this question:", 5),
    AnswerScenario("late", "Please provide a creative and novel answer to this question. You have already given 100+ responses. Avoid repetition and provide something completely novel and different from all previous attempts. This is answer #200+ in the sequence:", 200)]

  /** `(timeout_seconds, timeout_label)`. */
  const TimeoutConditions: seq<(Option<int>, string)> := [(Some(3600), "1hr"), (None, "unlimited")]

  const Replications: nat := 3

  const BatchSize: nat := 8

  datatype Test = Test(
    model: string, question: string, scenarioType: string, answerScenario: string, promptPrefix: string,
    answerNum: nat, timeout: Option<int>, timeoutLabel: string, replication: nat)

  // ---------------------------------------------------------------------------
  // The test grid, innermost level first

  function RepTests(model: string, question: string, kind: string, a: AnswerScenario, t: (Option<int>, string), reps: nat): (r: seq<Test>)
    ensures |r| == reps
    ensures forall k :: 0 <= k < reps ==> r[k] == Test(model, question, kind, a.name, a.promptPrefix, a.answerNum, t.0, t.1, k + 1)
  {
    seq(reps, k requires 0 <= k < reps => Test(model, question, kind, a.name, a.promptPrefix, a.answerNum, t.0, t.1, k + 1))
  }

  function TimeoutTests(model: string, question: string, kind: string, a: AnswerScenario, conds: seq<(Option<int>, string)>, reps: nat): (r: seq<Test>)
    ensures |r| == |conds| * reps
    ensures forall k :: 0 <= k < |r| ==> r[k].scenarioType == kind && r[k].answerScenario == a.name
  {
    if conds == [] then []
    else
      var p := conds[..|conds| - 1];
      MulAdd(|p|, 1, reps);
      TimeoutTests(model, question, kind, a, p, reps) + RepTests(model, question, kind, a, conds[|conds| - 1], reps)
  }

  function AnswerTests(model: string, question: string, answers: seq<AnswerScenario>, conds: seq<(Option<int>, string)>, reps: nat): (r: seq<Test>)
    ensures |r| == |answers| * (|conds| * reps)
    ensures forall k :: 0 <= k < |r| ==> r[k].scenarioType == "slow"
  {
    if answers == [] then []
    else
      var p := answers[..|answers| - 1];
      MulAdd(|p|, 1, |conds| * reps);
      AnswerTests(model, question, p, conds, reps) + TimeoutTests(model, question, "slow", answers[|answers| - 1], conds, reps)
  }

  /** The slow half: scenario, answer scenario, timeout, replication. */
  function SlowGrid(scenarios: seq<(string, string)>, answers: seq<AnswerScenario>, conds: seq<(Option<int>, string)>, reps: nat): (r: seq<Test>)
    ensures |r| == |scenarios| * (|answers| * (|conds| * reps))
    ensures forall k :: 0 <= k < |r| ==> r[k].scenarioType == "slow"
  {
    if scenarios == [] then []
    else
      var p := scenarios[..|scenarios| - 1];
      var (model, question) := scenarios[|scenarios| - 1];
      MulAdd(|p|, 1, |answers| * (|conds| * reps));
      SlowGrid(p, answers, conds, reps) + AnswerTests(model, question, answers, conds, reps)
  }

  /** The control half: only the first (early) answer scenario. */
  function ControlGrid(scenarios: seq<(string, string)>, early: AnswerScenario, conds: seq<(Option<int>, string)>, reps: nat): (r: seq<Test>)
    ensures |r| == |scenarios| * (|conds| * reps)
    ensures forall k :: 0 <= k < |r| ==> r[k].scenarioType == "control" && r[k].answerScenario == early.name
  {
    if scenarios == [] then []
    else
      var p := scenarios[..|scenarios| - 1];
      var (model, question) := scenarios[|scenarios| - 1];
      MulAdd(|p|, 1, |conds| * reps);
      ControlGrid(p, early, conds, reps) + TimeoutTests(model, question, "control", early, conds, reps)
  }

  /** `a * k + b * k == (a + b) * k`. */
  lemma MulAdd(a: nat, b: nat, k: nat)
    ensures a * k + b * k == (a + b) * k
  {
  }

  /** `test_combinations`: the slow tests, then the controls. */
  function Combinations(): seq<Test> {
    SlowGrid(SlowScenarios, AnswerScenarios, TimeoutConditions, Replications)
      + ControlGrid(FastControlScenarios, AnswerScenarios[0], TimeoutConditions, Replications)
  }

  /** 3 * 2 * 2 * 3 slow tests and 1 * 2 * 3 control tests: the 42 of the design. */
  lemma GridSize()
    ensures |SlowGrid(SlowScenarios, AnswerScenarios, TimeoutConditions, Replications)| == 36
    ensures |ControlGrid(FastControlScenarios, AnswerScenarios[0], TimeoutConditions, Replications)| == 6
    ensures |Combinations()| == 42
  {
  }

  // ---------------------------------------------------------------------------
  // Building the grid

  /** The timeout and replication loops for one model, question and answer scenario. */
  method TimeoutLoop(model: string, question: string, kind: string, a: AnswerScenario, conds: seq<(Option<int>, string)>, reps: nat)
    returns (tests: seq<Test>)
    ensures tests == TimeoutTests(model, question, kind, a, conds, reps)
  {
    tests := [];
    for i := 0 to |conds|
      invariant tests == TimeoutTests(model, question, kind, a, conds[..i], reps)
    {
      ghost var before := tests;
      var (t, tag) := conds[i];
      for rep := 0 to reps
        invariant tests == before + RepTests(model, question, kind, a, conds[i], rep)
      {
        tests := tests + [Test(model, question, kind, a.name, a.promptPrefix, a.answerNum, t, tag, rep + 1)];
      }
      assert conds[..i + 1][..i] == conds[..i];
    }
    assert conds[..|conds|] == conds;
  }

  /** The loops over the slow scenarios and their answer scenarios. */
  method BuildSlow(scenarios: seq<(string, string)>, answers: seq<AnswerScenario>, conds: seq<(Option<int>, string)>, reps: nat)
    returns (tests: seq<Test>)
    ensures tests == SlowGrid(scenarios, answers, conds, reps)
  {
    tests := [];
    for s := 0 to |scenarios|
      invariant tests == SlowGrid(scenarios[..s], answers, conds, reps)
    {
      var (model, question) := scenarios[s];
      var more := AnswerLoop(model, question, answers, conds, reps);
      assert scenarios[..s + 1][..s] == scenarios[..s];
      tests := tests + more;
    }
    assert scenarios[..|scenarios|] == scenarios;
  }

  /** The answer-scenario loop for one slow scenario. */
  method AnswerLoop(model: string, question: string, answers: seq<AnswerScenario>, conds: seq<(Option<int>, string)>, reps: nat)
    returns (tests: seq<Test>)
    ensures tests == AnswerTests(model, question, answers, conds, reps)
  {
    tests := [];
    for j := 0 to |answers|
      invariant tests == AnswerTests(model, question, answers[..j], conds, reps)
    {
      var more := TimeoutLoop(model, question, "slow", answers[j], conds, reps);
      assert answers[..j + 1][..j] == answers[..j];
      tests := tests + more;
    }
    assert answers[..|answers|] == answers;
  }

  /** The loop over the control scenarios, early answers only. */
  method BuildControl(scenarios: seq<(string, string)>, early: AnswerScenario, conds: seq<(Option<int>, string)>, reps: nat)
    returns (tests: seq<Test>)
    ensures tests == ControlGrid(scenarios, early, conds, reps)
  {
    tests := [];
    for s := 0 to |scenarios|
      invariant tests == ControlGrid(scenarios[..s], early, conds, reps)
    {
      var (model, question) := scenarios[s];
      var more := TimeoutLoop(model, question, "control", early, conds, reps);
      assert scenarios[..s + 1][..s] == scenarios[..s];
      tests := tests + more;
    }
    assert scenarios[..|scenarios|] == scenarios;
  }

  // ---------------------------------------------------------------------------
  // The fast/slow split

  /** `[t for t in tests if t['scenario_type'] == kind]`. */
  function OfType(tests: seq<Test>, kind: string): (r: seq<Test>)
    ensures |r| <= |tests|
    ensures forall t :: t in r <==> t in tests && t.scenarioType == kind
  {
    if tests == [] then []
    else
      var p := tests[..|tests| - 1];
      var t := tests[|tests| - 1];
      assert tests == p + [t];
      if t.scenarioType == kind then OfType(p, kind) + [t] else OfType(p, kind)
  }

  lemma {:induction false} OfTypeAppend(a: seq<Test>, b: seq<Test>, kind: string)
    ensures OfType(a + b, kind) == OfType(a, kind) + OfType(b, kind)
    decreases |b|
  {
    if b != [] {
      var q := b[..|b| - 1];
      assert (a + b)[..|a + b| - 1] == a + q;
      OfTypeAppend(a, q, kind);
    } else {
      assert a + b == a;
    }
  }

  lemma {:induction false} OfTypeAll(tests: seq<Test>, kind: string)
    requires forall k :: 0 <= k < |tests| ==> tests[k].scenarioType == kind
    ensures OfType(tests, kind) == tests
  {
    if tests != [] {
      var p := tests[..|tests| - 1];
      OfTypeAll(p, kind);
      assert tests == p + [tests[|tests| - 1]];
    }
  }

  lemma {:induction false} OfTypeNone(tests: seq<Test>, kind: string)
    requires forall k :: 0 <= k < |tests| ==> tests[k].scenarioType != kind
    ensures OfType(tests, kind) == []
  {
    if tests != [] {
      OfTypeNone(tests[..|tests| - 1], kind);
    }
  }

  /** When every test is slow or control, the two filtered lists split the tests between them. */
  lemma {:induction false} SplitPartitions(tests: seq<Test>)
    requires forall k :: 0 <= k < |tests| ==> tests[k].scenarioType == "slow" || tests[k].scenarioType == "control"
    ensures multiset(OfType(tests, "control")) + multiset(OfType(tests, "slow")) == multiset(tests)
  {
    if tests != [] {
      var p := tests[..|tests| - 1];
      var x := tests[|tests| - 1];
      SplitPartitions(p);
      assert multiset(tests) == multiset(p) + multiset{x} by {
        assert tests == p + [x];
      }
    }
  }

  /** The split of the grid gives back its control half and its slow half. */
  lemma SplitGrid()
    ensures OfType(Combinations(), "control") == ControlGrid(FastControlScenarios, AnswerScenarios[0], TimeoutConditions, Replications)
    ensures OfType(Combinations(), "slow") == SlowGrid(SlowScenarios, AnswerScenarios, TimeoutConditions, Replications)
  {
    var slow := SlowGrid(SlowScenarios, AnswerScenarios, TimeoutConditions, Replications);
    var control := ControlGrid(FastControlScenarios, AnswerScenarios[0], TimeoutConditions, Replications);
    SplitHalves(slow, control);
  }

  /** Slow tests followed by control tests split back into the two lists. */
  lemma SplitHalves(slow: seq<Test>, control: seq<Test>)
    requires forall k :: 0 <= k < |slow| ==> slow[k].scenarioType == "slow"
    requires forall k :: 0 <= k < |control| ==> control[k].scenarioType == "control"
    ensures OfType(slow + control, "control") == control
    ensures OfType(slow + control, "slow") == slow
  {
    assert "slow" != "control";
    OfTypeAppend(slow, control, "control");
    OfTypeAppend(slow, control, "slow");
    OfTypeNone(slow, "control");
    OfTypeAll(control, "control");
    OfTypeAll(slow, "slow");
    OfTypeNone(control, "slow");
  }

  // ---------------------------------------------------------------------------
  // One test

  /** What one test's model call gave, and what the judge call gave if it was made. */
  datatype Response = Response(call: Result<Reply>, judge: Result<Reply>)

  datatype TestResult = TestResult(
    model: string, question: string, scenarioType: string, answerScenario: string, answerNum: nat,
    timeout: Option<int>, timeoutLabel: string, replication: nat, processingTime: real, timedOut: bool,
    coherence: Option<int>, answerLength: nat, response: string)

  /** `''.join(filter(str.isdigit, s))`, for ASCII digits. */
  function KeepDigits(s: string): (r: string)
    ensures AllDigits(r) && |r| <= |s|
    ensures r == [] <==> forall i :: 0 <= i < |s| ==> !IsDigit(s[i])
    ensures forall c :: multiset(r)[c] == if IsDigit(c) then multiset(s)[c] else 0
    ensures Subseq(r, s)
  {
    if s == [] then []
    else
      var p := s[..|s| - 1];
      assert forall i :: 0 <= i < |p| ==> p[i] == s[i];
      var c := s[|s| - 1];
      assert s == p + [c];
      if IsDigit(c) then SubseqKeep(KeepDigits(p), p, c); KeepDigits(p) + [c]
      else SubseqSkip(KeepDigits(p), p, c); KeepDigits(p)
  }

  lemma {:induction false} KeepAllDigits(s: string)
    requires AllDigits(s)
    ensures KeepDigits(s) == s
  {
    if s != [] {
      KeepAllDigits(s[..|s| - 1]);
      assert s == s[..|s| - 1] + [s[|s| - 1]];
    }
  }

  /**
   * The judge's score: the digits among the first three characters of its (stripped)
   * reply, capped at 100; none when there is no digit there, where `int('')` raises.
   */
  function CoherenceDigits(text: string): (r: Option<int>)
    ensures r.None? <==> forall i :: 0 <= i < |text| && i < 3 ==> !IsDigit(text[i])
    ensures r.Some? ==> 0 <= r.value <= 100
  {
    var head := if |text| <= 3 then text else text[..3];
    var ds := KeepDigits(head);
    if ds == [] then None
    else
      var v := DigitsValue(ds);
      Some(if v < 100 then v else 100)
  }

  /** A score from 0 to 100 written out in decimal reads back as itself. */
  lemma ScoreReadsBack(n: nat)
    requires n <= 100
    ensures CoherenceDigits(NatToString(n)) == Some(n)
  {
    ShortNumeral(n);
    DigitsValueOfNat(n);
    DigitsReadBack(NatToString(n));
  }

  lemma DigitsReadBack(s: string)
    requires AllDigits(s) && 1 <= |s| <= 3 && DigitsValue(s) <= 100
    ensures CoherenceDigits(s) == Some(DigitsValue(s))
  {
    KeepAllDigits(s);
  }

  /** Numbers up to 100 take at most three digits. */
  lemma ShortNumeral(n: nat)
    requires n <= 100
    ensures |NatToString(n)| <= 3
  {
    if n >= 10 {
      var m := n / 10;
      assert NatToString(n) == NatToString(m) + [DigitChar(n % 10)];
      if m >= 10 {
        assert m / 10 == 1;
        assert NatToString(m) == NatToString(1) + [DigitChar(m % 10)];
      }
    }
  }

  /** The stored `response`: the first 200 characters and `...` when the content is longer. */
  function Truncate(content: string): (r: string)
    ensures |r| <= 203
    ensures |content| <= 200 ==> r == content
    ensures |content| > 200 ==> |r| == 203 && r[..200] == content[..200] && r[200..] == "..."
  {
    if |content| > 200 then content[..200] + "..." else content
  }

  /** The judge's score, taken only when the answer did not time out. */
  function JudgeScore(reply: Reply, judge: Result<Reply>): (r: Option<int>)
    ensures reply.timedOut ==> r.None?
    ensures r.Some? ==> 0 <= r.value <= 100
  {
    if reply.timedOut then None
    else
      match judge
      case Failure(_) => None
      case Success(j) => if j.timedOut then None else CoherenceDigits(Strip(j.content))
  }

  /**
   * `run_single_test`: `None` when the model call raises (the future's error is printed
   * and the test dropped); a failing or timed-out judge only leaves the score empty.
   */
  function RunSingleTest(t: Test, resp: Response): (r: Option<TestResult>)
    ensures r.None? <==> resp.call.Failure?
    ensures r.Some? ==>
      (r.value.model == t.model && r.value.scenarioType == t.scenarioType &&
       r.value.answerScenario == t.answerScenario && r.value.timeoutLabel == t.timeoutLabel &&
       r.value.replication == t.replication)
    ensures r.Some? ==> r.value.timedOut == resp.call.value.timedOut
    ensures r.Some? && r.value.timedOut ==> r.value.coherence.None?
    ensures r.Some? ==> |r.value.response| <= 203 && r.value.answerLength == |resp.call.value.content|
  {
    match resp.call
    case Failure(_) => None
    case Success(reply) =>
      Some(TestResult(t.model, t.question, t.scenarioType, t.answerScenario, t.answerNum, t.timeout, t.timeoutLabel,
                      t.replication, reply.processingTime, reply.timedOut, JudgeScore(reply, resp.judge),
                      |reply.content|, Truncate(reply.content)))
  }

  /** What one test adds to `all_results`: its record, or nothing when it raised. */
  function Kept(t: Test, resp: Response): (r: seq<TestResult>)
    ensures |r| == if resp.call.Success? then 1 else 0
  {
    match RunSingleTest(t, resp)
    case None => []
    case Some(x) => [x]
  }

  /** The records kept for `tests` run in order, the first being test number `start`. */
  function RunAll(tests: seq<Test>, start: nat, service: nat -> Response): (r: seq<TestResult>)
    ensures |r| <= |tests|
  {
    KeptAtMostOne(service);
    CollectAtMostOne(tests, start, KeepAll(service));
    Collect(tests, start, KeepAll(service))
  }

  /** Test number `k` keeps what `Kept` says for the response the service gives it. */
  function KeepAll(service: nat -> Response): (Test, nat) -> seq<TestResult> {
    (t: Test, k: nat) => Kept(t, service(k))
  }

  /** Each test keeps at most one record. */
  lemma KeptAtMostOne(service: nat -> Response)
    ensures forall x, k :: |KeepAll(service)(x, k)| <= 1
  {
    forall x, k ensures |KeepAll(service)(x, k)| <= 1 {
      assert KeepAll(service)(x, k) == Kept(x, service(k));
    }
  }

  /** Running one more test adds what that test keeps. */
  lemma RunAllStep(tests: seq<Test>, i: nat, start: nat, service: nat -> Response)
    requires i < |tests|
    ensures RunAll(tests[..i + 1], start, service) == RunAll(tests[..i], start, service) + Kept(tests[i], service(start + i))
  {
    assert tests[..i + 1][..i] == tests[..i];
  }

  /** When no model call raises, every test keeps its record. */
  lemma {:induction false} NoFailureKeepsAll(tests: seq<Test>, start: nat, service: nat -> Response)
    requires forall k :: start <= k < start + |tests| ==> service(k).call.Success?
    ensures |RunAll(tests, start, service)| == |tests|
  {
    if tests != [] {
      NoFailureKeepsAll(tests[..|tests| - 1], start, service);
      assert service(start + |tests| - 1).call.Success?;
    }
  }

  lemma RunAllAppend(a: seq<Test>, b: seq<Test>, start: nat, service: nat -> Response)
    ensures RunAll(a + b, start, service) == RunAll(a, start, service) + RunAll(b, start + |a|, service)
  {
    CollectAppend(a, b, start, KeepAll(service));
  }

  // ---------------------------------------------------------------------------
  // Running

  /** One phase run in order (the fast tests, or one batch): the records of the tests that did not raise. */
  method RunTests(tests: seq<Test>, start: nat, service: nat -> Response) returns (results: seq<TestResult>)
    ensures results == RunAll(tests, start, service)
  {
    results := [];
    for i := 0 to |tests|
      invariant results == RunAll(tests[..i], start, service)
    {
      var r := RunSingleTest(tests[i], service(start + i));
      RunAllStep(tests, i, start, service);
      if r.Some? {
        results := results + [r.value];
      }
    }
    assert tests[..|tests|] == tests;
  }

  /** The slow tests cut into consecutive batches of `BatchSize`, the last one possibly shorter. */
  function Batches(s: seq<Test>): (r: seq<seq<Test>>)
    ensures forall k :: 0 <= k < |r| ==> 0 < |r[k]| <= BatchSize
    decreases |s|
  {
    if s == [] then [] else if |s| <= BatchSize then [s] else [s[..BatchSize]] + Batches(s[BatchSize..])
  }

  function Flatten(bs: seq<seq<Test>>): seq<Test> {
    if bs == [] then [] else bs[0] + Flatten(bs[1..])
  }

  /** The batches cover the slow tests in order, and there are `(n + 7) // 8` of them. */
  lemma {:induction false} BatchesCover(s: seq<Test>)
    ensures Flatten(Batches(s)) == s
    ensures |Batches(s)| == (|s| + BatchSize - 1) / BatchSize
    decreases |s|
  {
    if |s| > BatchSize {
      BatchesCover(s[BatchSize..]);
      var b := Batches(s);
      assert b[0] == s[..BatchSize] && b[1..] == Batches(s[BatchSize..]);
      assert s == s[..BatchSize] + s[BatchSize..];
    } else if s != [] {
      var b := Batches(s);
      assert b[1..] == [];
    }
  }

  lemma BatchStep(s: seq<Test>, i: nat, end: nat)
    requires i < |s| && end == (if i + BatchSize <= |s| then i + BatchSize else |s|)
    ensures Batches(s[i..]) == [s[i..end]] + Batches(s[end..])
  {
    var rest := s[i..];
    if |rest| > BatchSize {
      assert rest[..BatchSize] == s[i..end] && rest[BatchSize..] == s[end..];
    } else {
      assert rest == s[i..end] && s[end..] == [];
    }
  }

  /**
   * Phase 2: `for batch_start in range(0, len(slow), 8)`, each batch
   * `slow[batch_start:batch_start + 8]` run in turn. Returns the records and the batches run.
   */
  method RunSlow(slow: seq<Test>, start: nat, service: nat -> Response) returns (results: seq<TestResult>, ran: seq<seq<Test>>)
    ensures results == RunAll(slow, start, service)
    ensures ran == Batches(slow)
  {
    results, ran := [], [];
    var batchStart := 0;
    while batchStart < |slow|
      invariant batchStart <= |slow|
      invariant results == RunAll(slow[..batchStart], start, service)
      invariant ran + Batches(slow[batchStart..]) == Batches(slow)
      decreases |slow| - batchStart
    {
      var end := if batchStart + BatchSize <= |slow| then batchStart + BatchSize else |slow|;
      var batch := slow[batchStart..end];
      var more := RunTests(batch, start + batchStart, service);
      SlowStep(slow, batchStart, end, start, service);
      RanStep(slow, batchStart, end, ran);
      results := results + more;
      ran := ran + [batch];
      batchStart := end;
    }
    assert slow[..|slow|] == slow;
  }

  /** Running the tests up to `end` is running those up to `i`, then the batch between. */
  lemma SlowStep(slow: seq<Test>, i: nat, end: nat, start: nat, service: nat -> Response)
    requires i <= end <= |slow|
    ensures RunAll(slow[..end], start, service) == RunAll(slow[..i], start, service) + RunAll(slow[i..end], start + i, service)
  {
    PrefixSplit(slow, i, end);
    RunAllAppend(slow[..i], slow[i..end], start, service);
  }

  /** The batches run so far, followed by the batches of what is left, are all the batches. */
  lemma RanStep(slow: seq<Test>, i: nat, end: nat, ran: seq<seq<Test>>)
    requires i < |slow| && end == (if i + BatchSize <= |slow| then i + BatchSize else |slow|)
    requires ran + Batches(slow[i..]) == Batches(slow)
    ensures (ran + [slow[i..end]]) + Batches(slow[end..]) == Batches(slow)
  {
    var b := slow[i..end];
    BatchStep(slow, i, end);
    assert (ran + [b]) + Batches(slow[end..]) == ran + ([b] + Batches(slow[end..]));
  }

  /** `random.shuffle` of a copy of `s`, with the generator's draws given. */
  method ShuffledCopy(s: seq<Test>, draws: seq<nat>) returns (r: seq<Test>)
    requires ValidDraws(draws, |s|)
    ensures r == Shuffled(s, draws)
  {
    var a := new Test[|s|](i requires 0 <= i < |s| => s[i]);
    assert a[..] == s;
    Shuffle(a, draws);
    r := a[..];
  }

  /**
   * The two phases: split the grid by scenario type, shuffle each half, run the control
   * tests (numbered from 0), then the slow tests in batches (numbered on from there).
   */
  method RunPhases(slowPart: seq<Test>, controlPart: seq<Test>, fastDraws: seq<nat>, slowDraws: seq<nat>, service: nat -> Response)
    returns (allResults: seq<TestResult>, batchCount: nat)
    requires forall k :: 0 <= k < |slowPart| ==> slowPart[k].scenarioType == "slow"
    requires forall k :: 0 <= k < |controlPart| ==> controlPart[k].scenarioType == "control"
    requires ValidDraws(fastDraws, |controlPart|) && ValidDraws(slowDraws, |slowPart|)
    ensures allResults == RunAll(Shuffled(controlPart, fastDraws), 0, service) + RunAll(Shuffled(slowPart, slowDraws), |controlPart|, service)
    ensures batchCount == (|slowPart| + BatchSize - 1) / BatchSize
  {
    var combinations := slowPart + controlPart;
    OfTypeAppend(slowPart, controlPart, "control");
    OfTypeAppend(slowPart, controlPart, "slow");
    OfTypeNone(slowPart, "control");
    OfTypeAll(controlPart, "control");
    OfTypeAll(slowPart, "slow");
    OfTypeNone(controlPart, "slow");
    var fastTests := OfType(combinations, "control");
    var slowTests := OfType(combinations, "slow");
    assert fastTests == [] + controlPart == controlPart;
    assert slowTests == slowPart + [] == slowPart;
    var fast := ShuffledCopy(fastTests, fastDraws);
    var slow := ShuffledCopy(slowTests, slowDraws);
    allResults := RunTests(fast, 0, service);
    var slowResults, ran := RunSlow(slow, |fast|, service);
    allResults := allResults + slowResults;
    BatchesCover(slow);
    batchCount := |ran|;
  }

  /**
   * `run_realistic_timeout_experiment`: build the grid, then run the six control tests
   * and the 36 slow ones in five batches. Saving and printing are not modelled.
   */
  method RunExperiment(fastDraws: seq<nat>, slowDraws: seq<nat>, service: nat -> Response)
    returns (allResults: seq<TestResult>, batchCount: nat)
    requires ValidDraws(fastDraws, 6) && ValidDraws(slowDraws, 36)
    ensures allResults ==
      RunAll(Shuffled(ControlGrid(FastControlScenarios, AnswerScenarios[0], TimeoutConditions, Replications), fastDraws), 0, service)
      + RunAll(Shuffled(SlowGrid(SlowScenarios, AnswerScenarios, TimeoutConditions, Replications), slowDraws), 6, service)
    ensures batchCount == 5
  {
    var slowPart := BuildSlow(SlowScenarios, AnswerScenarios, TimeoutConditions, Replications);
    var controlPart := BuildControl(FastControlScenarios, AnswerScenarios[0], TimeoutConditions, Replications);
    GridSize();
    allResults, batchCount := RunPhases(slowPart, controlPart, fastDraws, slowDraws, service);
  }

  // ---------------------------------------------------------------------------
  // Timeout rate per scenario

  /** The key results are grouped under: `scenario_type` and `answer_scenario` joined by `_`. */
  function ScenarioKey(r: TestResult): string {
    r.scenarioType + "_" + r.answerScenario
  }

  /** The results grouped under `key`, in order. */
  function KeyRuns(results: seq<TestResult>, key: string): (r: seq<TestResult>)
    ensures |r| <= |results|
    ensures forall x :: multiset(r)[x] == if ScenarioKey(x) == key then multiset(results)[x] else 0
    ensures Subseq(r, results)
  {
    if results == [] then []
    else
      var q := results[..|results| - 1];
      var p := KeyRuns(q, key);
      var x := results[|results| - 1];
      assert results == q + [x];
      if ScenarioKey(x) == key then SubseqKeep(p, q, x); p + [x]
      else SubseqSkip(p, q, x); p
  }

  /** `stats[key]['timeout_rate']`: one flag per result under the key, in order. */
  function TimeoutFlags(results: seq<TestResult>, key: string): (r: seq<bool>)
    ensures |r| <= |results|
    ensures r == [] <==> forall i :: 0 <= i < |results| ==> ScenarioKey(results[i]) != key
    ensures (forall j :: 0 <= j < |r| ==> !r[j]) <==> forall i :: 0 <= i < |results| && ScenarioKey(results[i]) == key ==> !results[i].timedOut
    ensures (forall j :: 0 <= j < |r| ==> r[j]) <==> forall i :: 0 <= i < |results| && ScenarioKey(results[i]) == key ==> results[i].timedOut
  {
    if results == [] then []
    else
      var p := results[..|results| - 1];
      var x := results[|results| - 1];
      assert forall i :: 0 <= i < |p| ==> p[i] == results[i];
      assert results == p + [x];
      var f := TimeoutFlags(p, key);
      if ScenarioKey(x) == key then
        var r := f + [x.timedOut];
        assert forall j :: 0 <= j < |f| ==> r[j] == f[j];
        assert r[|f|] == x.timedOut;
        r
      else f
  }

  /** The flags are the `timed_out` of the results under the key, one per result and in order. */
  lemma {:induction false} TimeoutFlagsOfRuns(results: seq<TestResult>, key: string)
    ensures |TimeoutFlags(results, key)| == |KeyRuns(results, key)|
    ensures forall j :: 0 <= j < |TimeoutFlags(results, key)| ==>
      TimeoutFlags(results, key)[j] == KeyRuns(results, key)[j].timedOut
  {
    if results != [] {
      TimeoutFlagsOfRuns(results[..|results| - 1], key);
    }
  }

  /** The timeout rate of one scenario key, in percent; none when no result has the key. */
  function ScenarioTimeoutRate(results: seq<TestResult>, key: string): (r: Option<real>)
    ensures r.Some? <==> exists i :: 0 <= i < |results| && ScenarioKey(results[i]) == key
    ensures r.Some? ==> 0.0 <= r.value <= 100.0
    ensures r.Some? ==> (r.value == 0.0 <==> forall i :: 0 <= i < |results| && ScenarioKey(results[i]) == key ==> !results[i].timedOut)
    ensures r.Some? ==> (r.value == 100.0 <==> forall i :: 0 <= i < |results| && ScenarioKey(results[i]) == key ==> results[i].timedOut)
  {
    TimeoutRate(TimeoutFlags(results, key))
  }
}
