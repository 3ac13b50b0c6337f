/**
 * proper_benchmark_timeout_test.py: every scenario is run under every time limit twice,
 * each run being one call of the timeout-aware benchmark loop, whose code is not part of
 * this model. What a run gives is an input: `service(k)` is what the k-th attempted run
 * returned or raised, with the two clock readings the script takes, attempts being
 * numbered in loop order from 0.
 */
module ProperBenchmarkTimeout {
  import opened Wrappers
  import opened Strings
  import opened Store
  import opened ExperimentCommon
  import Seqs

  datatype Scenario = Scenario(model: string, question: string, description: string)

  const SlowScenarios: seq<Scenario> := [
    Scenario("openai/gpt-4.5-preview", "What is a non poisonous recipe nobody has prepared before?",
             "Historically averaged 19,669s (5+ hours)"),
    Scenario("openai/o3-mini:high", "Describe a new form of professional sports that focuses on non-competitive collaboration.",
             "Historically averaged 12,890s (3.5+ hours)"),
    Scenario("openai/o3-mini:high", "Propose an alternative to democracy for successfully and fairly governing a large nation.",
             "Historically averaged 11,911s (3+ hours)")]

  const ControlScenario: Scenario :=
    Scenario("openai/gpt-4o-mini-2024-07-18", "How might you use a brick and a blanket?", "Control - typically fast")

  /** `(timeout_seconds, timeout_label)`. */
  const TimeoutConditions: seq<(Option<int>, string)> := [(Some(3600), "1hr"), (Some(7200), "2hr"), (None, "unlimited")]

  /** `range(1, 3)`: replications 1 and 2. */
  const Replications: nat := 2

  function TestScenarios(): seq<Scenario> {
    SlowScenarios + [ControlScenario]
  }

  /** `total_tests`: scenarios times time limits times two replications. */
  function TotalTests(scenarios: seq<Scenario>, conds: seq<(Option<int>, string)>): nat {
    |scenarios| * (|conds| * Replications)
  }

  /** Four scenarios, three limits, two replications: 24 planned runs. */
  lemma DesignSize()
    ensures |TestScenarios()| == 4 && TotalTests(TestScenarios(), TimeoutConditions) == 24
  {
  }

  // ---------------------------------------------------------------------------
  // One run

  /** How the benchmark call ended: with its answers, raising an `Exception`, or by Ctrl+C. */
  datatype BenchCall = Returned(answers: seq<Answer>) | Raised(message: string) | Interrupted

  /**
   * One attempted run: the call's outcome, the seconds elapsed when the error handler
   * checks the clock, and the seconds elapsed at the end of the run.
   */
  datatype Observation = Observation(call: BenchCall, elapsedAtError: real, totalRuntime: real)

  datatype RunResult = RunResult(
    model: string, question: string, description: string, timeout: Option<int>, timeoutLabel: string,
    replication: nat, totalRuntime: real, timedOut: bool, errorMessage: Option<string>,
    quality: Quality, answersData: seq<Answer>)

  /** A raised run counts as timed out only under a limit, and only once that limit has passed. */
  predicate RanOutOfTime(t: Option<int>, obs: Observation) {
    obs.call.Raised? && Limited(t) && obs.elapsedAtError >= t.value as real
  }

  /** `answers_generated[:5]`. */
  function FirstFive(answers: seq<Answer>): (r: seq<Answer>)
    ensures |r| <= 5 && |r| <= |answers| && r == answers[..|r|]
    ensures |answers| <= 5 ==> r == answers
  {
    if |answers| <= 5 then answers else answers[..5]
  }

  /**
   * `run_benchmark_with_timeout`. A KeyboardInterrupt is not an `Exception`, so it leaves
   * the function: `None` here. Any other error gives a record with no answers, marked
   * timed out when the limit had passed.
   */
  function RunBenchmark(sc: Scenario, t: Option<int>, tLabel: string, rep: nat, obs: Observation): (r: Option<RunResult>)
    ensures r.None? <==> obs.call.Interrupted?
    ensures r.Some? ==> r.value.model == sc.model && r.value.timeoutLabel == tLabel && r.value.replication == rep
    ensures r.Some? ==> (r.value.timedOut <==> RanOutOfTime(t, obs))
    ensures r.Some? ==> (r.value.errorMessage.None? <==> obs.call.Returned?)
    ensures r.Some? && r.value.timedOut ==>
      r.value.errorMessage == Some("Benchmark timed out after " + IntToString(t.value) + " seconds")
    ensures r.Some? && obs.call.Raised? ==> r.value.quality == Quality(0.0, 0.0, 0, 0.0) && r.value.answersData == []
    ensures r.Some? && obs.call.Returned? ==>
      r.value.quality.totalAnswers == |obs.call.answers| && r.value.answersData == FirstFive(obs.call.answers)
  {
    match obs.call
    case Interrupted => None
    case Raised(e) =>
      var timedOut := RanOutOfTime(t, obs);
      var message := if timedOut then "Benchmark timed out after " + IntToString(t.value) + " seconds" else e;
      Some(RunResult(sc.model, sc.question, sc.description, t, tLabel, rep, obs.totalRuntime, timedOut, Some(message),
                     Summarize([]), []))
    case Returned(answers) =>
      Some(RunResult(sc.model, sc.question, sc.description, t, tLabel, rep, obs.totalRuntime, false, None,
                     Summarize(answers), FirstFive(answers)))
  }

  /** An unlimited run is never marked timed out, however long it ran. */
  lemma UnlimitedNeverTimesOut(sc: Scenario, rep: nat, obs: Observation)
    requires !obs.call.Interrupted?
    ensures !RunBenchmark(sc, None, "unlimited", rep, obs).value.timedOut
  {
  }

  // ---------------------------------------------------------------------------
  // The experiment loops, as functions of the attempts from `start` on

  /**
   * One attempted run as the loops see it: scenario, time limit, replication and attempt
   * number in, the record or an interrupt (`None`) out.
   */
  type Runner = (Scenario, (Option<int>, string), nat, nat) -> Option<RunResult>

  /** The script's runner: `run_benchmark_with_timeout` on the k-th observation. */
  function Benchmark(service: nat -> Observation): Runner {
    (sc: Scenario, cond: (Option<int>, string), rep: nat, k: nat) => RunBenchmark(sc, cond.0, cond.1, rep, service(k))
  }

  /** No run from attempt `start` on is interrupted. */
  ghost predicate NoInterruptFrom(run: Runner, start: nat) {
    forall sc, cond, rep, k :: k >= start ==> run(sc, cond, rep, k).Some?
  }

  /** The script's runner is interrupted exactly where the observation is a Ctrl+C. */
  lemma BenchmarkInterrupts(service: nat -> Observation, start: nat)
    ensures NoInterruptFrom(Benchmark(service), start) <==> forall k :: k >= start ==> !service(k).call.Interrupted?
  {
    var run := Benchmark(service);
    if forall k :: k >= start ==> !service(k).call.Interrupted? {
      forall sc, cond, rep, k | k >= start
        ensures run(sc, cond, rep, k).Some?
      {
        assert run(sc, cond, rep, k) == RunBenchmark(sc, cond.0, cond.1, rep, service(k));
      }
    } else {
      var k :| k >= start && service(k).call.Interrupted?;
      assert run(ControlScenario, (None, "unlimited"), 1, k) == RunBenchmark(ControlScenario, None, "unlimited", 1, service(k));
    }
  }

  /**
   * Where a loop leaves the experiment: the records it appended, the runs it attempted
   * (each counted before it runs) and whether a KeyboardInterrupt ended it.
   */
  datatype Progress = Progress(records: seq<RunResult>, attempts: nat, interrupted: bool)

  /** Nothing run yet. */
  const NoProgress := Progress([], 0, false)

  /** A loop pass that ran `n` runs, kept every record and was not interrupted. */
  predicate Complete(p: Progress, n: nat) {
    |p.records| == p.attempts == n && !p.interrupted
  }

  /** The replication loop from replication `rep` on; an interrupt breaks it. */
  function Reps(sc: Scenario, cond: (Option<int>, string), rep: nat, start: nat, run: Runner): (r: Progress)
    requires 1 <= rep <= Replications + 1
    ensures |r.records| <= r.attempts <= Replications + 1 - rep
    decreases Replications + 1 - rep
  {
    if rep > Replications then NoProgress
    else
      match run(sc, cond, rep, start)
      case None => Progress([], 1, true)
      case Some(x) =>
        var rest := Reps(sc, cond, rep + 1, start + 1, run);
        Progress([x] + rest.records, 1 + rest.attempts, rest.interrupted)
  }

  /**
   * A `for` loop whose body is `pass`, run on `items` with the attempt counter starting
   * at `start`. An interrupted pass ends the loop only under `stopAll`; otherwise the
   * loop carries on with the next item.
   */
  function Passes<T>(items: seq<T>, start: nat, pass: (T, nat) -> Progress, stopAll: bool): (r: Progress)
    ensures r.interrupted ==> stopAll
  {
    if items == [] then NoProgress
    else
      var before := Passes(items[..|items| - 1], start, pass, stopAll);
      if before.interrupted then before
      else
        var last := pass(items[|items| - 1], start + before.attempts);
        Progress(before.records + last.records, before.attempts + last.attempts, last.interrupted && stopAll)
  }

  /** The replication loop as a pass of the time-limit loop. */
  function RepsPass(sc: Scenario, run: Runner): ((Option<int>, string), nat) -> Progress {
    (cond: (Option<int>, string), k: nat) => Reps(sc, cond, 1, k, run)
  }

  /**
   * The time-limit loop for one scenario. As written (`stopAll` false) an interrupt ends
   * only its replication loop and the next time limit runs; with `stopAll` it ends the
   * whole experiment.
   */
  function Conds(sc: Scenario, conds: seq<(Option<int>, string)>, start: nat, run: Runner, stopAll: bool): Progress {
    Passes(conds, start, RepsPass(sc, run), stopAll)
  }

  /** The time-limit loop as a pass of the scenario loop. */
  function CondsPass(conds: seq<(Option<int>, string)>, run: Runner, stopAll: bool): (Scenario, nat) -> Progress {
    (sc: Scenario, k: nat) => Conds(sc, conds, k, run, stopAll)
  }

  /** The scenario loop. */
  function Scenarios(scs: seq<Scenario>, conds: seq<(Option<int>, string)>, start: nat, run: Runner, stopAll: bool): Progress {
    Passes(scs, start, CondsPass(conds, run, stopAll), stopAll)
  }

  // ---------------------------------------------------------------------------
  // Properties of a loop of passes

  /** Each pass keeps at most one record per attempted run, so the loop does too. */
  lemma {:induction false} PassesKeep<T>(items: seq<T>, start: nat, pass: (T, nat) -> Progress, stopAll: bool)
    requires forall x, k :: |pass(x, k).records| <= pass(x, k).attempts
    ensures var r := Passes(items, start, pass, stopAll); |r.records| <= r.attempts
  {
    if items != [] {
      PassesKeep(items[..|items| - 1], start, pass, stopAll);
    }
  }

  /** When no pass attempts more than `n` runs, the loop attempts at most `n` per item. */
  lemma {:induction false} PassesBound<T>(items: seq<T>, start: nat, pass: (T, nat) -> Progress, stopAll: bool, n: nat)
    requires forall x, k :: pass(x, k).attempts <= n
    ensures Passes(items, start, pass, stopAll).attempts <= |items| * n
  {
    if items != [] {
      PassesBound(items[..|items| - 1], start, pass, stopAll, n);
      MulAdd(|items| - 1, 1, n);
    }
  }

  /** When every pass from attempt `from` on completes `n` runs, so does every item of the loop. */
  lemma {:induction false} PassesAll<T>(items: seq<T>, start: nat, pass: (T, nat) -> Progress, stopAll: bool, from: nat, n: nat)
    requires start >= from
    requires forall x, k :: k >= from ==> Complete(pass(x, k), n)
    ensures Complete(Passes(items, start, pass, stopAll), |items| * n)
  {
    if items != [] {
      var before := Passes(items[..|items| - 1], start, pass, stopAll);
      PassesAll(items[..|items| - 1], start, pass, stopAll, from, n);
      assert Complete(pass(items[|items| - 1], start + before.attempts), n);
      MulAdd(|items| - 1, 1, n);
    }
  }

  /**
   * As written: the first pass is interrupted after `first` attempts but the loop goes
   * on, and every later pass completes `n` runs.
   */
  lemma {:induction false} PassesAfterInterrupt<T>(items: seq<T>, start: nat, pass: (T, nat) -> Progress, n: nat)
    requires items != [] && pass(items[0], start).attempts >= 1
    requires forall x, k :: k >= start + 1 ==> Complete(pass(x, k), n)
    ensures var first := pass(items[0], start);
      var r := Passes(items, start, pass, false);
      |r.records| == |first.records| + (|items| - 1) * n && r.attempts == first.attempts + (|items| - 1) * n && !r.interrupted
  {
    var first := pass(items[0], start);
    if |items| == 1 {
      assert Passes(items[..0], start, pass, false) == NoProgress;
      assert [] + first.records == first.records;
    } else {
      var before := Passes(items[..|items| - 1], start, pass, false);
      assert items[..|items| - 1][0] == items[0];
      PassesAfterInterrupt(items[..|items| - 1], start, pass, n);
      assert Complete(pass(items[|items| - 1], start + before.attempts), n);
      MulAdd(|items| - 2, 1, n);
    }
  }

  /** Corrected: with `stopAll`, an interrupted first pass is where the loop ends. */
  lemma {:induction false} PassesStop<T>(items: seq<T>, start: nat, pass: (T, nat) -> Progress)
    requires items != [] && pass(items[0], start).interrupted
    ensures Passes(items, start, pass, true) == pass(items[0], start)
  {
    var first := pass(items[0], start);
    if |items| == 1 {
      assert Passes(items[..0], start, pass, true) == NoProgress;
      assert [] + first.records == first.records;
    } else {
      assert items[..|items| - 1][0] == items[0];
      PassesStop(items[..|items| - 1], start, pass);
    }
  }

  /** `a * k + b * k == (a + b) * k`. */
  lemma MulAdd(a: nat, b: nat, k: nat)
    ensures a * k + b * k == (a + b) * k
  {
  }

  // ---------------------------------------------------------------------------
  // Properties of the experiment's loops

  /** No interrupt from `start` on: every replication runs and keeps its record. */
  lemma {:induction false} RepsAll(sc: Scenario, cond: (Option<int>, string), rep: nat, start: nat, run: Runner)
    requires 1 <= rep <= Replications + 1
    requires NoInterruptFrom(run, start)
    ensures Complete(Reps(sc, cond, rep, start, run), Replications + 1 - rep)
    decreases Replications + 1 - rep
  {
    if rep <= Replications {
      assert run(sc, cond, rep, start).Some?;
      RepsAll(sc, cond, rep + 1, start + 1, run);
    }
  }

  lemma CondsAll(sc: Scenario, conds: seq<(Option<int>, string)>, start: nat, run: Runner, stopAll: bool)
    requires NoInterruptFrom(run, start)
    ensures Complete(Conds(sc, conds, start, run, stopAll), |conds| * Replications)
  {
    forall cond, k | k >= start
      ensures Complete(RepsPass(sc, run)(cond, k), Replications)
    {
      RepsAll(sc, cond, 1, k, run);
    }
    PassesAll(conds, start, RepsPass(sc, run), stopAll, start, Replications);
  }

  /** With no interrupt, all `total_tests` runs are attempted and each one is recorded. */
  lemma ScenariosAll(scs: seq<Scenario>, conds: seq<(Option<int>, string)>, start: nat, run: Runner, stopAll: bool)
    requires NoInterruptFrom(run, start)
    ensures Complete(Scenarios(scs, conds, start, run, stopAll), TotalTests(scs, conds))
  {
    forall sc, k | k >= start
      ensures Complete(CondsPass(conds, run, stopAll)(sc, k), |conds| * Replications)
    {
      CondsAll(sc, conds, k, run, stopAll);
    }
    PassesAll(scs, start, CondsPass(conds, run, stopAll), stopAll, start, |conds| * Replications);
  }

  /**
   * Whatever happens, the experiment keeps at most one record per attempted run and
   * attempts at most `total_tests` runs.
   */
  lemma ScenariosBound(scs: seq<Scenario>, conds: seq<(Option<int>, string)>, start: nat, run: Runner, stopAll: bool)
    ensures var r := Scenarios(scs, conds, start, run, stopAll); |r.records| <= r.attempts <= TotalTests(scs, conds)
  {
    forall sc, k
      ensures |CondsPass(conds, run, stopAll)(sc, k).records| <= CondsPass(conds, run, stopAll)(sc, k).attempts
      ensures CondsPass(conds, run, stopAll)(sc, k).attempts <= |conds| * Replications
    {
      PassesKeep(conds, k, RepsPass(sc, run), stopAll);
      PassesBound(conds, k, RepsPass(sc, run), stopAll, Replications);
    }
    PassesKeep(scs, start, CondsPass(conds, run, stopAll), stopAll);
    PassesBound(scs, start, CondsPass(conds, run, stopAll), stopAll, |conds| * Replications);
  }

  /**
   * As written, one scenario: a Ctrl+C during its first run loses that run and the
   * replication after it; the remaining time limits all run.
   */
  lemma InterruptedScenario(sc: Scenario, conds: seq<(Option<int>, string)>, run: Runner)
    requires conds != []
    requires run(sc, conds[0], 1, 0).None?
    requires NoInterruptFrom(run, 1)
    ensures var r := Conds(sc, conds, 0, run, false);
      |r.records| == (|conds| - 1) * Replications && r.attempts == |r.records| + 1 && !r.interrupted
  {
    assert Reps(sc, conds[0], 1, 0, run) == Progress([], 1, true);
    forall cond, k | k >= 1
      ensures Complete(RepsPass(sc, run)(cond, k), Replications)
    {
      RepsAll(sc, cond, 1, k, run);
    }
    PassesAfterInterrupt(conds, 0, RepsPass(sc, run), Replications);
  }

  /**
   * As written: a Ctrl+C during the very first run skips only that scenario's second
   * replication under the first limit; every other run still happens and is recorded.
   */
  lemma InterruptContinues(scs: seq<Scenario>, conds: seq<(Option<int>, string)>, run: Runner)
    requires scs != [] && conds != []
    requires run(scs[0], conds[0], 1, 0).None?
    requires NoInterruptFrom(run, 1)
    ensures var r := Scenarios(scs, conds, 0, run, false);
      |r.records| == (|conds| - 1) * Replications + (|scs| - 1) * (|conds| * Replications) && r.attempts == |r.records| + 1
  {
    InterruptedScenario(scs[0], conds, run);
    forall sc, k | k >= 1
      ensures Complete(CondsPass(conds, run, false)(sc, k), |conds| * Replications)
    {
      CondsAll(sc, conds, k, run, false);
    }
    PassesAfterInterrupt(scs, 0, CondsPass(conds, run, false), |conds| * Replications);
  }

  /**
   * With the design's four scenarios and three limits, a Ctrl+C during the first run
   * still leaves 22 records from 23 attempted runs.
   */
  lemma InterruptLeaves22(service: nat -> Observation)
    requires service(0).call.Interrupted?
    requires forall k :: k >= 1 ==> !service(k).call.Interrupted?
    ensures var r := Scenarios(TestScenarios(), TimeoutConditions, 0, Benchmark(service), false);
      |r.records| == 22 && r.attempts == 23
  {
    BenchmarkInterrupts(service, 1);
    var run := Benchmark(service);
    assert run(TestScenarios()[0], TimeoutConditions[0], 1, 0).None?;
    InterruptContinues(TestScenarios(), TimeoutConditions, run);
  }

  /** Corrected: with an interrupt ending the whole experiment, nothing runs after it. */
  lemma InterruptStops(scs: seq<Scenario>, conds: seq<(Option<int>, string)>, run: Runner)
    requires scs != [] && conds != []
    requires run(scs[0], conds[0], 1, 0).None?
    ensures Scenarios(scs, conds, 0, run, true) == Progress([], 1, true)
  {
    assert Reps(scs[0], conds[0], 1, 0, run) == Progress([], 1, true);
    PassesStop(conds, 0, RepsPass(scs[0], run));
    PassesStop(scs, 0, CondsPass(conds, run, true));
  }

  // ---------------------------------------------------------------------------
  // The loops of `run_proper_benchmark_timeout_experiment`

  /** The replication loop, left by `break` on a KeyboardInterrupt. */
  method RunReps(sc: Scenario, cond: (Option<int>, string), start: nat, run: Runner)
    returns (results: seq<RunResult>, attempts: nat, interrupted: bool)
    ensures Progress(results, attempts, interrupted) == Reps(sc, cond, 1, start, run)
  {
    results, attempts, interrupted := [], 0, false;
    var rep := 1;
    while rep <= Replications
      invariant 1 <= rep <= Replications + 1 && attempts == rep - 1
      invariant RepsSoFar(sc, cond, rep, start, run, results, attempts)
      decreases Replications + 1 - rep
    {
      var r := run(sc, cond, rep, start + attempts);
      if r.None? {
        RepsStop(sc, cond, rep, start, run, results, attempts);
        attempts := attempts + 1;
        interrupted := true;
        return;
      }
      RepsStep(sc, cond, rep, start, run, results, attempts, r.value);
      results := results + [r.value];
      attempts := attempts + 1;
      rep := rep + 1;
    }
    RepsDone(sc, cond, rep, start, run, results, attempts);
  }

  /** One pass of the replication loop that returned a record moves the loop on by one replication. */
  lemma RepsStep(sc: Scenario, cond: (Option<int>, string), rep: nat, start: nat, run: Runner,
                 results: seq<RunResult>, attempts: nat, x: RunResult)
    requires 1 <= rep <= Replications && attempts == rep - 1
    requires run(sc, cond, rep, start + attempts) == Some(x)
    requires RepsSoFar(sc, cond, rep, start, run, results, attempts)
    ensures RepsSoFar(sc, cond, rep + 1, start, run, results + [x], attempts + 1)
  {
    var rest := Reps(sc, cond, rep + 1, start + attempts + 1, run);
    assert results + ([x] + rest.records) == (results + [x]) + rest.records;
  }

  /**
   * The replication loop so far: the records kept before replication `rep`, followed by
   * what the loop does from `rep` on, make up the whole loop.
   */
  ghost predicate RepsSoFar(sc: Scenario, cond: (Option<int>, string), rep: nat, start: nat, run: Runner,
                            results: seq<RunResult>, attempts: nat)
    requires 1 <= rep <= Replications + 1
  {
    var rest := Reps(sc, cond, rep, start + attempts, run);
    Reps(sc, cond, 1, start, run) == Progress(results + rest.records, attempts + rest.attempts, rest.interrupted)
  }

  /** An interrupted replication ends the loop with the records kept so far. */
  lemma RepsStop(sc: Scenario, cond: (Option<int>, string), rep: nat, start: nat, run: Runner,
                 results: seq<RunResult>, attempts: nat)
    requires 1 <= rep <= Replications && attempts == rep - 1
    requires run(sc, cond, rep, start + attempts).None?
    requires RepsSoFar(sc, cond, rep, start, run, results, attempts)
    ensures Reps(sc, cond, 1, start, run) == Progress(results, attempts + 1, true)
  {
    assert results + [] == results;
  }

  /** After the last replication nothing is left to run. */
  lemma RepsDone(sc: Scenario, cond: (Option<int>, string), rep: nat, start: nat, run: Runner,
                 results: seq<RunResult>, attempts: nat)
    requires rep == Replications + 1
    requires RepsSoFar(sc, cond, rep, start, run, results, attempts)
    ensures Reps(sc, cond, 1, start, run) == Progress(results, attempts, false)
  {
    assert results + [] == results;
  }

  /**
   * One pass of a loop that is not interrupted moves it on by one item: the records and
   * the attempts of the pass are added to the loop's.
   */
  lemma PassesStep<T>(items: seq<T>, i: nat, start: nat, pass: (T, nat) -> Progress,
                      results: seq<RunResult>, attempts: nat, last: Progress)
    requires i < |items|
    requires Progress(results, attempts, false) == Passes(items[..i], start, pass, false)
    requires last == pass(items[i], start + attempts)
    ensures Progress(results + last.records, attempts + last.attempts, false) == Passes(items[..i + 1], start, pass, false)
  {
    assert items[..i + 1][..i] == items[..i];
  }

  /** The time-limit loop for one scenario; an interrupt does not leave it. */
  method RunConds(sc: Scenario, conds: seq<(Option<int>, string)>, start: nat, run: Runner)
    returns (results: seq<RunResult>, attempts: nat)
    ensures Progress(results, attempts, false) == Conds(sc, conds, start, run, false)
  {
    results, attempts := [], 0;
    for i := 0 to |conds|
      invariant Progress(results, attempts, false) == Conds(sc, conds[..i], start, run, false)
    {
      var more, n, stopped := RunReps(sc, conds[i], start + attempts, run);
      PassesStep(conds, i, start, RepsPass(sc, run), results, attempts, Progress(more, n, stopped));
      results := results + more;
      attempts := attempts + n;
    }
    assert conds[..|conds|] == conds;
  }

  /**
   * `run_proper_benchmark_timeout_experiment`: the records kept and `current_test`, the
   * number of runs attempted. Saving and the analysis printout are not modelled.
   */
  method RunExperiment(scs: seq<Scenario>, conds: seq<(Option<int>, string)>, service: nat -> Observation)
    returns (allResults: seq<RunResult>, currentTest: nat)
    ensures Progress(allResults, currentTest, false) == Scenarios(scs, conds, 0, Benchmark(service), false)
    ensures |allResults| <= currentTest <= TotalTests(scs, conds)
  {
    var run := Benchmark(service);
    allResults, currentTest := [], 0;
    for s := 0 to |scs|
      invariant Progress(allResults, currentTest, false) == Scenarios(scs[..s], conds, 0, run, false)
    {
      var more, n := RunConds(scs[s], conds, currentTest, run);
      PassesStep(scs, s, 0, CondsPass(conds, run, false), allResults, currentTest, Progress(more, n, false));
      allResults := allResults + more;
      currentTest := currentTest + n;
    }
    ExperimentDone(scs, conds, run, allResults, currentTest);
  }

  /** Once every scenario has run, the loop's progress is the whole experiment's, within the plan. */
  lemma ExperimentDone(scs: seq<Scenario>, conds: seq<(Option<int>, string)>, run: Runner,
                       allResults: seq<RunResult>, currentTest: nat)
    requires Progress(allResults, currentTest, false) == Scenarios(scs[..|scs|], conds, 0, run, false)
    ensures Progress(allResults, currentTest, false) == Scenarios(scs, conds, 0, run, false)
    ensures |allResults| <= currentTest <= TotalTests(scs, conds)
  {
    assert scs[..|scs|] == scs;
    ScenariosBound(scs, conds, 0, run, false);
  }

  // ---------------------------------------------------------------------------
  // Timeout rate per group

  /** The last `/`-separated part of a model id. */
  function ShortModel(model: string): string {
    var parts := Split(model, '/');
    parts[|parts| - 1]
  }

  /** `f"{model.split('/')[-1]}_{question[:30]}..."`. */
  function GroupKey(r: RunResult): string {
    ShortModel(r.model) + "_" + (if |r.question| <= 30 then r.question else r.question[..30]) + "..."
  }

  /** A run lands in `groups[key][tLabel]`. */
  predicate InGroup(r: RunResult, key: string, tLabel: string) {
    GroupKey(r) == key && r.timeoutLabel == tLabel
  }

  /** `groups[key][tLabel]`: the runs of one scenario under one time-limit label, in order. */
  function GroupRuns(results: seq<RunResult>, key: string, tLabel: string): (r: seq<RunResult>)
    ensures |r| <= |results|
    ensures forall x :: multiset(r)[x] == if InGroup(x, key, tLabel) then multiset(results)[x] else 0
    ensures Seqs.Subseq(r, results)
  {
    if results == [] then []
    else
      var q := results[..|results| - 1];
      var p := GroupRuns(q, key, tLabel);
      var x := results[|results| - 1];
      assert results == q + [x];
      if InGroup(x, key, tLabel) then Seqs.SubseqKeep(p, q, x); p + [x]
      else Seqs.SubseqSkip(p, q, x); p
  }

  /** `timeouts`: the `timed_out` flag of each run of the group, in order. */
  function GroupFlags(results: seq<RunResult>, key: string, tLabel: string): (r: seq<bool>)
    ensures |r| <= |results|
    ensures r == [] <==> forall i :: 0 <= i < |results| ==> !InGroup(results[i], key, tLabel)
    ensures (forall j :: 0 <= j < |r| ==> !r[j]) <==>
      forall i :: 0 <= i < |results| && InGroup(results[i], key, tLabel) ==> !results[i].timedOut
    ensures (forall j :: 0 <= j < |r| ==> r[j]) <==>
      forall i :: 0 <= i < |results| && InGroup(results[i], key, tLabel) ==> results[i].timedOut
  {
    if results == [] then []
    else
      var p := results[..|results| - 1];
      var x := results[|results| - 1];
      assert results == p + [x];
      assert forall i :: 0 <= i < |p| ==> p[i] == results[i];
      var f := GroupFlags(p, key, tLabel);
      if InGroup(x, key, tLabel) then
        var r := f + [x.timedOut];
        assert forall j :: 0 <= j < |f| ==> r[j] == f[j];
        assert r[|f|] == x.timedOut;
        r
      else f
  }

  /**
   * `sum(timeouts) / len(timeouts) * 100` for one group: the share of its runs that timed
   * out, in [0, 100]; none for an empty group.
   */
  function GroupTimeoutRate(results: seq<RunResult>, key: string, tLabel: string): (r: Option<real>)
    ensures r.Some? <==> exists i :: 0 <= i < |results| && InGroup(results[i], key, tLabel)
    ensures r.Some? ==> 0.0 <= r.value <= 100.0
    ensures r.Some? ==> (r.value == 0.0 <==>
      forall i :: 0 <= i < |results| && InGroup(results[i], key, tLabel) ==> !results[i].timedOut)
    ensures r.Some? ==> (r.value == 100.0 <==>
      forall i :: 0 <= i < |results| && InGroup(results[i], key, tLabel) ==> results[i].timedOut)
  {
    TimeoutRate(GroupFlags(results, key, tLabel))
  }

  /** The flags are the group's runs' `timed_out`, one per run and in order. */
  lemma {:induction false} GroupFlagsOfRuns(results: seq<RunResult>, key: string, tLabel: string)
    ensures |GroupFlags(results, key, tLabel)| == |GroupRuns(results, key, tLabel)|
    ensures forall j :: 0 <= j < |GroupFlags(results, key, tLabel)| ==>
      GroupFlags(results, key, tLabel)[j] == GroupRuns(results, key, tLabel)[j].timedOut
  {
    if results != [] {
      var p := results[..|results| - 1];
      GroupFlagsOfRuns(p, key, tLabel);
    }
  }

  /** A group of unlimited runs from this experiment never has a timeout. */
  lemma UnlimitedGroupRateZero(results: seq<RunResult>, key: string)
    requires forall i :: 0 <= i < |results| && results[i].timeoutLabel == "unlimited" ==> !results[i].timedOut
    requires exists i :: 0 <= i < |results| && InGroup(results[i], key, "unlimited")
    ensures GroupTimeoutRate(results, key, "unlimited") == Some(0.0)
  {
  }
}
