/**
 * focused_timeout_test.py: historically slow scenarios are run under three time limits,
 * one benchmark call per test, with a cap on the number of tests and a stop on the
 * first API-quota error. The benchmark loop behind each call is not part of this model;
 * `service(k)` is what the k-th test's call returned or raised, with the two clock
 * readings the script takes, tests being numbered in loop order from 0.
 */
module FocusedTimeout {
  import opened Wrappers
  import opened Strings
  import opened Store
  import opened ExperimentCommon
  import Seqs

  datatype Scenario = Scenario(model: string, question: string, description: string)

  /** `(timeout_seconds, timeout_label)`. */
  type Cond = (Option<int>, string)

  const ExtremeScenarios: seq<Scenario> := [
    Scenario("openai/o1-preview", "What is a cause of World War 1?", "Historical max: 16,385s (4.6 hours), 206 answers"),
    Scenario("openai/o1-preview", "Describe a mobile app that encourages acts of kindness.",
             "Historical max: 16,338s (4.5 hours), 243 answers")]

  const LongScenarios: seq<Scenario> := [
    Scenario("openai/o1", "What is a non poisonous recipe nobody has prepared before?",
             "Historical max: 8,459s (2.4 hours), 100+ answers"),
    Scenario("openai/o1", "What could be a novel use for blockchain technology outside of cryptocurrency?",
             "Historical max: 7,843s (2.2 hours), 326 answers")]

  const ControlScenario: Scenario :=
    Scenario("openai/gpt-4o-mini-2024-07-18", "What color is the sky?", "Control - should be fast")

  const TimeoutConditions: seq<Cond> := [(Some(1800), "30min"), (Some(3600), "1hr"), (None, "unlimited")]

  /** The default `max_tests`. */
  const DefaultMaxTests: int := 6

  /** `test_scenarios`: the longest historical runs first, the control last. */
  function TestScenarios(): seq<Scenario> {
    ExtremeScenarios + LongScenarios + [ControlScenario]
  }

  // ---------------------------------------------------------------------------
  // One test

  /** How the benchmark call ended: with its answers, or raising an `Exception`. */
  datatype BenchCall = Returned(answers: seq<Answer>) | Raised(message: string)

  /**
   * One test: the call's outcome, the seconds elapsed when the error handler checks the
   * clock, and the seconds elapsed at the end of the test.
   */
  datatype Observation = Observation(call: BenchCall, elapsedAtError: real, totalRuntime: real)

  datatype FocusedResult = FocusedResult(
    model: string, question: string, description: string, timeout: Option<int>, timeoutLabel: string,
    totalRuntime: real, timedOut: bool, errorMessage: Option<string>, quality: Quality, previews: seq<string>)

  /** An error message that reports an exhausted API quota: `quota` in any case, or `429`. */
  predicate Quota(message: string) {
    Includes(Lower(message), "quota") || Includes(message, "429")
  }

  /** The call raised an error that reports an exhausted quota. */
  predicate QuotaError(obs: Observation) {
    obs.call.Raised? && Quota(obs.call.message)
  }

  /** A raised test counts as timed out under a limit once 90% of that limit had passed. */
  predicate TimedOut(t: Option<int>, obs: Observation) {
    obs.call.Raised? && Limited(t) && obs.elapsedAtError >= t.value as real * 0.9
  }

  /** `a['answer'][:100]`. */
  function Preview(a: Answer): (r: string)
    ensures |r| <= 100
    ensures var text := a.text.GetOr(""); |r| <= |text| && r == text[..|r|] && (|text| <= 100 ==> r == text)
  {
    var text := a.text.GetOr("");
    if |text| <= 100 then text else text[..100]
  }

  /** The previews of the first three answers. */
  function Previews(answers: seq<Answer>): (r: seq<string>)
    ensures |r| == if |answers| < 3 then |answers| else 3
    ensures forall i :: 0 <= i < |r| ==> r[i] == Preview(answers[i]) && |r[i]| <= 100
  {
    var n := if |answers| < 3 then |answers| else 3;
    seq(n, i requires 0 <= i < n => Preview(answers[i]))
  }

  /**
   * What one pass of the inner loop does: record the test, possibly asking the loops to
   * stop afterwards, or leave by the quota `break` in the error handler, before anything
   * is recorded.
   */
  datatype Outcome = Recorded(result: FocusedResult, stop: bool) | QuotaBreak

  /** The body of the inner loop, from the call to the quota check after the append. */
  function Attempt(sc: Scenario, cond: Cond, obs: Observation): (o: Outcome)
    ensures o.QuotaBreak? <==> QuotaError(obs) && !TimedOut(cond.0, obs)
    ensures (o.QuotaBreak? || (o.Recorded? && o.stop)) <==> QuotaError(obs)
    ensures o.Recorded? ==> (o.result.timedOut <==> TimedOut(cond.0, obs))
    ensures o.Recorded? ==>
      o.result.model == sc.model && o.result.question == sc.question && o.result.timeout == cond.0 &&
      o.result.timeoutLabel == cond.1 && o.result.totalRuntime == obs.totalRuntime
    ensures o.Recorded? ==> (o.result.errorMessage.Some? <==> obs.call.Raised?)
    ensures o.Recorded? && obs.call.Raised? ==>
      o.result.errorMessage == Some(obs.call.message) && o.result.quality == Quality(0.0, 0.0, 0, 0.0) && o.result.previews == []
    ensures o.Recorded? && obs.call.Returned? ==>
      o.result.quality == Summarize(obs.call.answers) && o.result.previews == Previews(obs.call.answers)
  {
    match obs.call
    case Raised(e) =>
      var timedOut := TimedOut(cond.0, obs);
      if !timedOut && Quota(e) then QuotaBreak
      else
        var r := FocusedResult(sc.model, sc.question, sc.description, cond.0, cond.1, obs.totalRuntime, timedOut,
                               Some(e), Summarize([]), Previews([]));
        Recorded(r, Quota(e))
    case Returned(answers) =>
      var r := FocusedResult(sc.model, sc.question, sc.description, cond.0, cond.1, obs.totalRuntime, false,
                             None, Summarize(answers), Previews(answers));
      Recorded(r, false)
  }

  /** An unlimited test is never marked timed out, however long it ran. */
  lemma UnlimitedNeverTimesOut(sc: Scenario, obs: Observation)
    requires Attempt(sc, (None, "unlimited"), obs).Recorded?
    ensures !Attempt(sc, (None, "unlimited"), obs).result.timedOut
  {
  }

  /** A 429 status stops the experiment whatever else the message says. */
  lemma Status429Stops(sc: Scenario, cond: Cond, obs: Observation)
    requires obs.call.Raised? && Includes(obs.call.message, "429")
    ensures var o := Attempt(sc, cond, obs); o.QuotaBreak? || o.stop
  {
  }

  // ---------------------------------------------------------------------------
  // The loops, as functions

  /**
   * The loops' state: the records in `all_results`, `test_count`, and whether the last
   * test ended with a quota error.
   */
  datatype State = State(records: seq<FocusedResult>, count: nat, quota: bool)

  const Start := State([], 0, false)

  /** No further test runs: the cap is reached or a quota error was seen. */
  predicate Ended(st: State, maxTests: int) {
    st.quota || st.count >= maxTests
  }

  /** One test, numbered `st.count`. */
  function Step(test: (Scenario, Cond), st: State, service: nat -> Observation): (r: State)
    ensures r.count == st.count + 1
    ensures r.quota <==> QuotaError(service(st.count))
    ensures var o := Attempt(test.0, test.1, service(st.count));
      (o.QuotaBreak? ==> r.records == st.records) && (o.Recorded? ==> r.records == st.records + [o.result])
  {
    match Attempt(test.0, test.1, service(st.count))
    case QuotaBreak => State(st.records, st.count + 1, true)
    case Recorded(x, stop) => State(st.records + [x], st.count + 1, stop)
  }

  /** The tests in `grid`, in order, from state `st`, each run only while the loops have not ended. */
  function Run(grid: seq<(Scenario, Cond)>, st: State, maxTests: int, service: nat -> Observation): State {
    if grid == [] then st
    else
      var before := Run(grid[..|grid| - 1], st, maxTests, service);
      if Ended(before, maxTests) then before else Step(grid[|grid| - 1], before, service)
  }

  /** One scenario under each time limit in turn. */
  function Row(sc: Scenario, conds: seq<Cond>): (r: seq<(Scenario, Cond)>)
    ensures |r| == |conds|
    ensures forall j :: 0 <= j < |r| ==> r[j] == (sc, conds[j])
  {
    seq(|conds|, j requires 0 <= j < |conds| => (sc, conds[j]))
  }

  /** Every (scenario, time limit) pair, scenario by scenario. */
  function Grid(scs: seq<Scenario>, conds: seq<Cond>): (r: seq<(Scenario, Cond)>)
  {
    if scs == [] then [] else Grid(scs[..|scs| - 1], conds) + Row(scs[|scs| - 1], conds)
  }

  /** The nested loops of `run_focused_timeout_test`: scenarios outside, time limits inside. */
  function Nested(scs: seq<Scenario>, conds: seq<Cond>, maxTests: int, service: nat -> Observation): State {
    if scs == [] then Start
    else
      var before := Nested(scs[..|scs| - 1], conds, maxTests, service);
      if Ended(before, maxTests) then before else Run(Row(scs[|scs| - 1], conds), before, maxTests, service)
  }

  // ---------------------------------------------------------------------------
  // Properties of the loops

  /** Once the loops have ended, nothing more runs. */
  lemma {:induction false} RunEnded(grid: seq<(Scenario, Cond)>, st: State, maxTests: int, service: nat -> Observation)
    requires Ended(st, maxTests)
    ensures Run(grid, st, maxTests, service) == st
  {
    if grid != [] {
      RunEnded(grid[..|grid| - 1], st, maxTests, service);
    }
  }

  /** Running two grids one after the other is running their concatenation. */
  lemma {:induction false} RunAppend(g1: seq<(Scenario, Cond)>, g2: seq<(Scenario, Cond)>, st: State, maxTests: int, service: nat -> Observation)
    ensures Run(g1 + g2, st, maxTests, service) == Run(g2, Run(g1, st, maxTests, service), maxTests, service)
  {
    if g2 == [] {
      assert g1 + g2 == g1;
    } else {
      assert (g1 + g2)[..|g1 + g2| - 1] == g1 + g2[..|g2| - 1];
      assert (g1 + g2)[|g1 + g2| - 1] == g2[|g2| - 1];
      RunAppend(g1, g2[..|g2| - 1], st, maxTests, service);
    }
  }

  /** Before the loops end, one more test of the grid is one more step. */
  lemma RunStepAt(grid: seq<(Scenario, Cond)>, j: nat, st: State, maxTests: int, service: nat -> Observation)
    requires j < |grid| && !Ended(Run(grid[..j], st, maxTests, service), maxTests)
    ensures Run(grid[..j + 1], st, maxTests, service) == Step(grid[j], Run(grid[..j], st, maxTests, service), service)
  {
    assert grid[..j + 1][..j] == grid[..j];
  }

  /** Once the loops end after the first `j` tests of a grid, the rest of the grid does not run. */
  lemma RunStopsAt(grid: seq<(Scenario, Cond)>, j: nat, st: State, maxTests: int, service: nat -> Observation)
    requires j <= |grid|
    requires Ended(Run(grid[..j], st, maxTests, service), maxTests)
    ensures Run(grid, st, maxTests, service) == Run(grid[..j], st, maxTests, service)
  {
    assert grid == grid[..j] + grid[j..];
    RunAppend(grid[..j], grid[j..], st, maxTests, service);
    RunEnded(grid[j..], Run(grid[..j], st, maxTests, service), maxTests, service);
  }

  /**
   * The breaks of the two nested loops act as one loop over the scenario-by-limit grid:
   * the tests run in grid order until the cap or a quota error.
   */
  lemma {:induction false} NestedIsFlat(scs: seq<Scenario>, conds: seq<Cond>, maxTests: int, service: nat -> Observation)
    ensures Nested(scs, conds, maxTests, service) == Run(Grid(scs, conds), Start, maxTests, service)
  {
    if scs != [] {
      var p := scs[..|scs| - 1];
      var row := Row(scs[|scs| - 1], conds);
      NestedIsFlat(p, conds, maxTests, service);
      var before := Nested(p, conds, maxTests, service);
      RunAppend(Grid(p, conds), row, Start, maxTests, service);
      if Ended(before, maxTests) {
        RunEnded(row, before, maxTests, service);
      }
    }
  }

  /**
   * Tests only ever add records, at most one each, and `test_count` never passes the cap
   * (nor 0 when the cap is negative) once it starts below it.
   */
  lemma {:induction false} RunCount(grid: seq<(Scenario, Cond)>, st: State, maxTests: int, service: nat -> Observation)
    requires st.count <= if maxTests < 0 then 0 else maxTests
    ensures var r := Run(grid, st, maxTests, service);
      st.count <= r.count <= if maxTests < 0 then 0 else maxTests
    ensures var r := Run(grid, st, maxTests, service);
      |st.records| <= |r.records| && r.records[..|st.records|] == st.records &&
      |r.records| - |st.records| <= r.count - st.count
  {
    if grid != [] {
      RunCount(grid[..|grid| - 1], st, maxTests, service);
      var before := Run(grid[..|grid| - 1], st, maxTests, service);
      if !Ended(before, maxTests) {
        var r := Step(grid[|grid| - 1], before, service);
        assert r.records[..|before.records|] == before.records;
        assert r.records[..|st.records|] == before.records[..|st.records|];
      }
    }
  }

  /** The experiment never runs more than `max_tests` tests and records at most one per test. */
  lemma CapRespected(scs: seq<Scenario>, conds: seq<Cond>, maxTests: int, service: nat -> Observation)
    ensures var r := Nested(scs, conds, maxTests, service);
      r.count <= (if maxTests < 0 then 0 else maxTests) && |r.records| <= r.count
  {
    NestedIsFlat(scs, conds, maxTests, service);
    RunCount(Grid(scs, conds), Start, maxTests, service);
  }

  /**
   * A quota error ends the experiment: if test `k` ran and raised one, it was the last
   * test, and the loops ended on it.
   */
  lemma {:induction false} QuotaEnds(grid: seq<(Scenario, Cond)>, st: State, maxTests: int, service: nat -> Observation, k: nat)
    requires st.count <= k && QuotaError(service(k))
    requires Run(grid, st, maxTests, service).count > k
    ensures Run(grid, st, maxTests, service).count == k + 1
    ensures Run(grid, st, maxTests, service).quota
  {
    if grid == [] {
    } else {
      var before := Run(grid[..|grid| - 1], st, maxTests, service);
      if Ended(before, maxTests) {
        QuotaEnds(grid[..|grid| - 1], st, maxTests, service, k);
      } else if before.count > k {
        QuotaEnds(grid[..|grid| - 1], st, maxTests, service, k);
        assert false;
      }
    }
  }

  /** No test raises a quota error. */
  ghost predicate NoQuotaErrors(service: nat -> Observation) {
    forall k :: !QuotaError(service(k))
  }

  /**
   * Without quota errors, the experiment runs the first `max_tests` tests of the grid
   * (all of them when fewer), in grid order, and records each one.
   */
  lemma {:induction false} RunsGridPrefix(grid: seq<(Scenario, Cond)>, maxTests: int, service: nat -> Observation)
    requires NoQuotaErrors(service)
    ensures var r := Run(grid, Start, maxTests, service);
      var cap := if maxTests < 0 then 0 else maxTests;
      r.count == (if |grid| < cap then |grid| else cap) && |r.records| == r.count && !r.quota &&
      forall i :: 0 <= i < |r.records| ==> r.records[i] == Attempt(grid[i].0, grid[i].1, service(i)).result
  {
    if grid != [] {
      var p := grid[..|grid| - 1];
      RunsGridPrefix(p, maxTests, service);
      var before := Run(p, Start, maxTests, service);
      assert forall i :: 0 <= i < |p| ==> p[i] == grid[i];
      if !Ended(before, maxTests) {
        var x := grid[|grid| - 1];
        assert !QuotaError(service(|p|));
        var o := Attempt(x.0, x.1, service(|p|));
        assert o.Recorded?;
        var r := Step(x, before, service);
        assert r.records == before.records + [o.result];
        forall i | 0 <= i < |r.records| ensures r.records[i] == Attempt(grid[i].0, grid[i].1, service(i)).result {
          if i < |p| {
            assert r.records[i] == before.records[i];
          }
        }
      }
    }
  }

  /**
   * The default run (`max_tests=6`) with no quota error tests only the two extreme
   * scenarios, each under 30 minutes, 1 hour and no limit, in that order: the long and
   * control scenarios are never reached.
   */
  lemma DefaultRunTestsExtremeOnly(service: nat -> Observation)
    requires NoQuotaErrors(service)
    ensures var r := Nested(TestScenarios(), TimeoutConditions, DefaultMaxTests, service);
      |r.records| == 6 &&
      (forall i :: 0 <= i < 3 ==>
        r.records[i].question == ExtremeScenarios[0].question && r.records[i].timeoutLabel == TimeoutConditions[i].1) &&
      (forall i :: 0 <= i < 3 ==>
        r.records[i + 3].question == ExtremeScenarios[1].question && r.records[i + 3].timeoutLabel == TimeoutConditions[i].1)
  {
    var scs := TestScenarios();
    assert scs[0] == ExtremeScenarios[0] && scs[1] == ExtremeScenarios[1];
    FirstTwoRows(scs, TimeoutConditions, DefaultMaxTests, service);
  }

  /**
   * With a cap of two rows and no quota error, the experiment records exactly the first
   * two scenarios, each under every time limit in order.
   */
  lemma FirstTwoRows(scs: seq<Scenario>, conds: seq<Cond>, maxTests: int, service: nat -> Observation)
    requires NoQuotaErrors(service) && |scs| >= 2 && maxTests == 2 * |conds|
    ensures var r := Nested(scs, conds, maxTests, service);
      |r.records| == maxTests &&
      (forall i {:trigger r.records[i]} :: 0 <= i < |conds| ==>
        r.records[i].question == scs[0].question && r.records[i].timeoutLabel == conds[i].1) &&
      (forall i :: |conds| <= i < 2 * |conds| ==>
        r.records[i].question == scs[1].question && r.records[i].timeoutLabel == conds[i - |conds|].1)
  {
    GridStart(scs, conds);
    NestedFollowsGrid(scs, conds, maxTests, service);
    RowsOfRecords(Nested(scs, conds, maxTests, service).records, Grid(scs, conds), scs[0], scs[1], conds);
  }

  /** Without quota errors, the nested loops record the grid's first `max_tests` cells in order. */
  lemma NestedFollowsGrid(scs: seq<Scenario>, conds: seq<Cond>, maxTests: int, service: nat -> Observation)
    requires NoQuotaErrors(service) && 0 <= maxTests <= |Grid(scs, conds)|
    ensures var r := Nested(scs, conds, maxTests, service);
      var grid := Grid(scs, conds);
      |r.records| == maxTests &&
      forall i :: 0 <= i < |r.records| ==>
        r.records[i].question == grid[i].0.question && r.records[i].timeoutLabel == grid[i].1.1
  {
    NestedIsFlat(scs, conds, maxTests, service);
    RecordsFollowGrid(Grid(scs, conds), maxTests, service);
  }

  /** Records that follow a grid starting with two full rows follow those two rows. */
  lemma RowsOfRecords(records: seq<FocusedResult>, grid: seq<(Scenario, Cond)>, first: Scenario, second: Scenario,
                      conds: seq<Cond>)
    requires |records| == 2 * |conds| <= |grid| && grid[..2 * |conds|] == Row(first, conds) + Row(second, conds)
    requires forall i :: 0 <= i < |records| ==>
      records[i].question == grid[i].0.question && records[i].timeoutLabel == grid[i].1.1
    ensures forall i {:trigger records[i]} :: 0 <= i < |conds| ==>
      records[i].question == first.question && records[i].timeoutLabel == conds[i].1
    ensures forall i :: |conds| <= i < 2 * |conds| ==>
      records[i].question == second.question && records[i].timeoutLabel == conds[i - |conds|].1
  {
    var n := |conds|;
    var rows := Row(first, conds) + Row(second, conds);
    forall i | 0 <= i < n
      ensures records[i].question == first.question && records[i].timeoutLabel == conds[i].1
    {
      assert grid[i] == grid[..2 * n][i] == rows[i] == (first, conds[i]);
    }
    forall i | n <= i < 2 * n
      ensures records[i].question == second.question && records[i].timeoutLabel == conds[i - n].1
    {
      assert grid[i] == grid[..2 * n][i] == rows[i] == (second, conds[i - n]);
    }
  }

  /** Without quota errors, each record names the scenario and time limit of its grid cell. */
  lemma RecordsFollowGrid(grid: seq<(Scenario, Cond)>, maxTests: int, service: nat -> Observation)
    requires NoQuotaErrors(service)
    ensures var r := Run(grid, Start, maxTests, service);
      var cap := if maxTests < 0 then 0 else maxTests;
      |r.records| == (if |grid| < cap then |grid| else cap) &&
      forall i :: 0 <= i < |r.records| ==>
        r.records[i].question == grid[i].0.question && r.records[i].timeoutLabel == grid[i].1.1
  {
    RunsGridPrefix(grid, maxTests, service);
    var r := Run(grid, Start, maxTests, service);
    forall i | 0 <= i < |r.records|
      ensures r.records[i].question == grid[i].0.question && r.records[i].timeoutLabel == grid[i].1.1
    {
      assert !QuotaError(service(i));
      assert Attempt(grid[i].0, grid[i].1, service(i)).Recorded?;
    }
  }

  /** The grid starts with the first scenario under every time limit, then the second. */
  lemma GridStart(scs: seq<Scenario>, conds: seq<Cond>)
    requires |scs| >= 2
    ensures var grid := Grid(scs, conds);
      |grid| >= 2 * |conds| && grid[..2 * |conds|] == Row(scs[0], conds) + Row(scs[1], conds)
  {
    var grid := Grid(scs, conds);
    var row0 := Row(scs[0], conds);
    var row1 := Row(scs[1], conds);
    assert scs[..2][..1] == scs[..1];
    assert scs[..1][..0] == [];
    assert Grid(scs[..1], conds) == row0;
    assert Grid(scs[..2], conds) == row0 + row1;
    GridPrefix(scs, 2, conds);
  }

  /** The grid of a prefix of the scenarios is a prefix of the grid. */
  lemma {:induction false} GridPrefix(scs: seq<Scenario>, n: nat, conds: seq<Cond>)
    requires n <= |scs|
    ensures var g := Grid(scs[..n], conds); |g| <= |Grid(scs, conds)| && Grid(scs, conds)[..|g|] == g
    decreases |scs|
  {
    if n < |scs| {
      var p := scs[..|scs| - 1];
      assert p[..n] == scs[..n];
      GridPrefix(p, n, conds);
    } else {
      assert scs[..n] == scs;
    }
  }

  /** The grid has one test per scenario and time limit. */
  lemma {:induction false} GridSize(scs: seq<Scenario>, conds: seq<Cond>)
    ensures |Grid(scs, conds)| == |scs| * |conds|
  {
    if scs != [] {
      GridSize(scs[..|scs| - 1], conds);
      MulAdd(|scs| - 1, 1, |conds|);
    }
  }

  /** `a * k + b * k == (a + b) * k`. */
  lemma MulAdd(a: nat, b: nat, k: nat)
    ensures a * k + b * k == (a + b) * k
  {
  }

  // ---------------------------------------------------------------------------
  // The loops of `run_focused_timeout_test`

  /** The time-limit loop for one scenario, left at the cap or on a quota error. */
  method RunScenario(sc: Scenario, conds: seq<Cond>, maxTests: int, service: nat -> Observation,
                     results: seq<FocusedResult>, count: nat)
    returns (allResults: seq<FocusedResult>, testCount: nat, quota: bool)
    ensures State(allResults, testCount, quota) == Run(Row(sc, conds), State(results, count, false), maxTests, service)
  {
    ghost var st := State(results, count, false);
    ghost var row := Row(sc, conds);
    allResults, testCount, quota := results, count, false;
    var j := 0;
    assert row[..0] == [];
    while j < |conds|
      invariant j <= |conds|
      invariant State(allResults, testCount, quota) == Run(row[..j], st, maxTests, service)
      invariant !quota
    {
      if testCount >= maxTests {
        RunStopsAt(row, j, st, maxTests, service);
        return;
      }
      RunStepAt(row, j, st, maxTests, service);
      var obs := service(testCount);
      testCount := testCount + 1;
      match Attempt(sc, conds[j], obs)
      case QuotaBreak =>
        quota := true;
        RunStopsAt(row, j + 1, st, maxTests, service);
        return;
      case Recorded(r, stop) =>
        allResults := allResults + [r];
        if stop {
          quota := true;
          RunStopsAt(row, j + 1, st, maxTests, service);
          return;
        }
      j := j + 1;
    }
    assert row[..j] == row;
  }

  /**
   * `run_focused_timeout_test`: the records in `all_results` and `test_count`. Saving and
   * the printed report are not modelled.
   */
  method RunFocusedTest(scs: seq<Scenario>, conds: seq<Cond>, maxTests: int, service: nat -> Observation)
    returns (allResults: seq<FocusedResult>, testCount: nat)
    ensures var r := Nested(scs, conds, maxTests, service); allResults == r.records && testCount == r.count
    ensures testCount <= (if maxTests < 0 then 0 else maxTests) && |allResults| <= testCount
  {
    allResults, testCount := [], 0;
    var quota := false;
    var i := 0;
    while i < |scs|
      invariant i <= |scs|
      invariant State(allResults, testCount, quota) == Nested(scs[..i], conds, maxTests, service)
      invariant !quota
    {
      if testCount >= maxTests {
        NestedStopsAt(scs, i, conds, maxTests, service);
        break;
      }
      assert scs[..i + 1][..i] == scs[..i];
      assert scs[..i + 1][i] == scs[i];
      allResults, testCount, quota := RunScenario(scs[i], conds, maxTests, service, allResults, testCount);
      i := i + 1;
      if quota {
        NestedStopsAt(scs, i, conds, maxTests, service);
        break;
      }
    }
    if i == |scs| {
      assert scs[..i] == scs;
    }
    CapRespected(scs, conds, maxTests, service);
  }

  /** Once the scenario loop ends after the first `i` scenarios, the rest do not run. */
  lemma {:induction false} NestedStopsAt(scs: seq<Scenario>, i: nat, conds: seq<Cond>, maxTests: int, service: nat -> Observation)
    requires i <= |scs|
    requires Ended(Nested(scs[..i], conds, maxTests, service), maxTests)
    ensures Nested(scs, conds, maxTests, service) == Nested(scs[..i], conds, maxTests, service)
    decreases |scs|
  {
    if i < |scs| {
      var p := scs[..|scs| - 1];
      assert p[..i] == scs[..i];
      NestedStopsAt(p, i, conds, maxTests, service);
    } else {
      assert scs[..i] == scs;
    }
  }

  // ---------------------------------------------------------------------------
  // The analysis of `analyze_focused_results`

  /** `[r for r in results if r['total_runtime'] > limit]`. */
  function LongerThan(results: seq<FocusedResult>, limit: real): (r: seq<FocusedResult>)
    ensures |r| <= |results|
    ensures forall x :: x in r <==> x in results && x.totalRuntime > limit
    ensures forall x :: multiset(r)[x] == if x.totalRuntime > limit then multiset(results)[x] else 0
    ensures Seqs.Subseq(r, results)
  {
    if results == [] then []
    else
      var q := results[..|results| - 1];
      var p := LongerThan(q, limit);
      var x := results[|results| - 1];
      assert results == q + [x];
      if x.totalRuntime > limit then Seqs.SubseqKeep(p, q, x); p + [x]
      else Seqs.SubseqSkip(p, q, x); p
  }

  /** Tests over five minutes. */
  function LongRuns(results: seq<FocusedResult>): seq<FocusedResult> {
    LongerThan(results, 300.0)
  }

  /** Tests over thirty minutes. */
  function VeryLongRuns(results: seq<FocusedResult>): seq<FocusedResult> {
    LongerThan(results, 1800.0)
  }

  /**
   * The very long runs are exactly the very long runs among the long runs, in the same
   * order; so there are never more of them.
   */
  lemma {:induction false} VeryLongWithinLong(results: seq<FocusedResult>)
    ensures VeryLongRuns(LongRuns(results)) == VeryLongRuns(results)
    ensures |VeryLongRuns(results)| <= |LongRuns(results)|
  {
    if results != [] {
      var p := results[..|results| - 1];
      var x := results[|results| - 1];
      VeryLongWithinLong(p);
      if x.totalRuntime > 300.0 {
        assert LongRuns(results) == LongRuns(p) + [x];
        assert (LongRuns(p) + [x])[..|LongRuns(p) + [x]| - 1] == LongRuns(p);
      }
    }
  }

  /** `[r for r in results if r['timed_out']]`. */
  function TimedOutRuns(results: seq<FocusedResult>): (r: seq<FocusedResult>)
    ensures |r| <= |results|
    ensures forall x :: x in r <==> x in results && x.timedOut
    ensures forall x :: multiset(r)[x] == if x.timedOut then multiset(results)[x] else 0
    ensures Seqs.Subseq(r, results)
  {
    if results == [] then []
    else
      var q := results[..|results| - 1];
      var p := TimedOutRuns(q);
      var x := results[|results| - 1];
      assert results == q + [x];
      if x.timedOut then Seqs.SubseqKeep(p, q, x); p + [x]
      else Seqs.SubseqSkip(p, q, x); p
  }

  /** Unlimited tests never appear among the timeouts. */
  lemma {:induction false} NoUnlimitedTimeouts(scs: seq<Scenario>, maxTests: int, service: nat -> Observation)
    ensures TimedOutRuns(Nested(scs, [(None, "unlimited")], maxTests, service).records) == []
  {
    var grid := Grid(scs, [(None, "unlimited")]);
    NestedIsFlat(scs, [(None, "unlimited")], maxTests, service);
    UnlimitedGrid(scs);
    UnlimitedRecords(grid, Start, maxTests, service);
    NoneTimedOut(Nested(scs, [(None, "unlimited")], maxTests, service).records);
  }

  /** With no timed-out record, the list of timeouts is empty. */
  lemma {:induction false} NoneTimedOut(results: seq<FocusedResult>)
    requires forall x :: x in results ==> !x.timedOut
    ensures TimedOutRuns(results) == []
  {
    if results != [] {
      assert forall x :: x in results[..|results| - 1] ==> x in results;
      NoneTimedOut(results[..|results| - 1]);
      assert results[|results| - 1] in results;
    }
  }

  /** Every test in a grid of unlimited conditions is unlimited. */
  lemma {:induction false} UnlimitedGrid(scs: seq<Scenario>)
    ensures forall t :: t in Grid(scs, [(None, "unlimited")]) ==> t.1.0 == None
  {
    if scs != [] {
      UnlimitedGrid(scs[..|scs| - 1]);
    }
  }

  /** Running only unlimited tests records no timeout. */
  lemma {:induction false} UnlimitedRecords(grid: seq<(Scenario, Cond)>, st: State, maxTests: int, service: nat -> Observation)
    requires forall t :: t in grid ==> t.1.0 == None
    requires forall x :: x in st.records ==> !x.timedOut
    ensures forall x :: x in Run(grid, st, maxTests, service).records ==> !x.timedOut
  {
    if grid != [] {
      var last := grid[|grid| - 1];
      assert forall t :: t in grid[..|grid| - 1] ==> t in grid;
      UnlimitedRecords(grid[..|grid| - 1], st, maxTests, service);
    }
  }
}
