/**
 * Three summaries plot.py draws from the results: the effective price of a model
 * (`_calculate_effective_cost`), the tally of why runs ended, per lab
 * (`plot_exit_reasons`), and the record-breaking models in release order
 * (`create_best_timeline_plots`).
 */
module PlotSummary {
  import opened Wrappers
  import opened Dicts
  import opened Store
  import opened Seqs
  import opened PlotText
  import opened PlotBest

  // ----- _calculate_effective_cost -----

  /** The keys of a price entry; the multiplier's is spelled as the price table spells it. */
  const InputKey := "input_price"
  const OutputKey := "output_price"
  const MultiplierKey := "reasoning_multplier"

  /** The three keys the cost reads are distinct. */
  lemma CostKeysDistinct()
    ensures InputKey != OutputKey && InputKey != MultiplierKey && OutputKey != MultiplierKey
  {
    assert InputKey[0] == 'i' && OutputKey[0] == 'o' && MultiplierKey[0] == 'r';
  }

  /** What the cost reads from a price entry: the lookups of its three keys. */
  datatype PriceKeys = PriceKeys(input: Option<real>, output: Option<real>, multiplier: Option<real>)

  function Fields(price: Dict<real>): PriceKeys {
    PriceKeys(Get(price, InputKey), Get(price, OutputKey), Get(price, MultiplierKey))
  }

  /** The mean of the input and output prices, when both are listed. */
  function BaseCost(f: PriceKeys): Option<real> {
    if f.input.Some? && f.output.Some? then Some((f.input.value + f.output.value) / 2.0) else None
  }

  /** The cost from the three lookups: the base cost, plus the output price times (multiplier − 1). */
  function CostOf(f: PriceKeys): (r: Option<real>)
    ensures r.Some? <==> BaseCost(f).Some?
    ensures f.multiplier.None? ==> r == BaseCost(f)
  {
    if f.input.None? || f.output.None? then None
    else if f.multiplier.Some? then Some(BaseCost(f).value + f.output.value * (f.multiplier.value - 1.0))
    else BaseCost(f)
  }

  /**
   * `_calculate_effective_cost(price)`. `None` where Python raises KeyError: a price
   * without its input or output price.
   */
  function EffectiveCost(price: Dict<real>): (r: Option<real>)
    ensures r.Some? <==> InputKey in Keys(price) && OutputKey in Keys(price)
  {
    CostOf(Fields(price))
  }

  /** On the lookups: a multiplier of at least one keeps the cost at or above the base, and one leaves it there. */
  lemma MultiplierRaises(f: PriceKeys, m: real)
    requires BaseCost(f).Some? && f.output.value >= 0.0 && m >= 1.0
    ensures var r := CostOf(f.(multiplier := Some(m)));
      r.Some? && r.value >= BaseCost(f).value && (m == 1.0 ==> r.value == BaseCost(f).value)
  {
    var g := f.(multiplier := Some(m));
    assert BaseCost(g) == BaseCost(f);
    Scale(f.output.value, 0.0, m - 1.0);
  }

  /** On the lookups: a larger multiplier never gives a smaller cost. */
  lemma MultiplierMonotone(f: PriceKeys, m1: real, m2: real)
    requires BaseCost(f).Some? && f.output.value >= 0.0 && m1 <= m2
    ensures CostOf(f.(multiplier := Some(m1))).value <= CostOf(f.(multiplier := Some(m2))).value
  {
    assert BaseCost(f.(multiplier := Some(m1))) == BaseCost(f);
    assert BaseCost(f.(multiplier := Some(m2))) == BaseCost(f);
    Scale(f.output.value, m1 - 1.0, m2 - 1.0);
  }

  /** Multiplying by a non-negative factor keeps the order. */
  lemma Scale(out: real, a: real, b: real)
    requires out >= 0.0 && a <= b
    ensures out * a <= out * b
  {
  }

  /** Setting the multiplier changes only the multiplier the cost reads. */
  lemma SetMultiplier(price: Dict<real>, m: real)
    ensures Fields(Put(price, MultiplierKey, m)) == Fields(price).(multiplier := Some(m))
  {
    CostKeysDistinct();
    PutGet(price, MultiplierKey, m, InputKey);
    PutGet(price, MultiplierKey, m, OutputKey);
    PutGet(price, MultiplierKey, m, MultiplierKey);
  }

  /** A multiplier of at least one never lowers the cost below the base, and one leaves it there. */
  lemma CostWithMultiplier(price: Dict<real>, m: real)
    requires BaseCost(Fields(price)).Some? && Fields(price).output.value >= 0.0 && m >= 1.0
    ensures var r := EffectiveCost(Put(price, MultiplierKey, m));
      r.Some? && r.value >= BaseCost(Fields(price)).value && (m == 1.0 ==> r.value == BaseCost(Fields(price)).value)
  {
    SetMultiplier(price, m);
    MultiplierRaises(Fields(price), m);
  }

  /** With a non-negative output price, a larger multiplier never gives a smaller cost. */
  lemma CostMonotone(price: Dict<real>, m1: real, m2: real)
    requires BaseCost(Fields(price)).Some? && Fields(price).output.value >= 0.0 && m1 <= m2
    ensures EffectiveCost(Put(price, MultiplierKey, m1)).value <= EffectiveCost(Put(price, MultiplierKey, m2)).value
  {
    SetMultiplier(price, m1);
    SetMultiplier(price, m2);
    MultiplierMonotone(Fields(price), m1, m2);
  }

  /** Any other key, the correctly spelled "reasoning_multiplier" among them, leaves the cost alone. */
  lemma CostIgnoresOtherKeys(price: Dict<real>, k: string, v: real)
    requires k != InputKey && k != OutputKey && k != MultiplierKey
    ensures EffectiveCost(Put(price, k, v)) == EffectiveCost(price)
  {
    PutGet(price, k, v, InputKey);
    PutGet(price, k, v, OutputKey);
    PutGet(price, k, v, MultiplierKey);
    assert Fields(Put(price, k, v)) == Fields(price);
  }

  // ----- plot_exit_reasons -----

  /** One lab's counters: runs that ended on coherence, on novelty, and all runs. */
  datatype Tally = Tally(coherence: nat, novelty: nat, total: nat)

  /** The entry `defaultdict` creates on first access. */
  const NoTally := Tally(0, 0, 0)

  /** Every run is counted once, under exactly one of the two reasons. */
  predicate Splits(t: Tally) {
    t.coherence + t.novelty == t.total
  }

  /** Every lab listed has at least one run, each counted under one reason. */
  predicate Balanced(stats: Dict<Tally>) {
    forall x :: x in stats ==> Splits(x.1) && x.1.total >= 1
  }

  /**
   * `any(answer['coherence_score'] < 15 for answer in answers)`, scanning left to right:
   * `None` when it reaches an answer without a coherence score (a KeyError).
   */
  function AnyBelow(answers: seq<Answer>): (r: Option<bool>)
    ensures r.Some? ==> (r.value <==> exists l :: 0 <= l < |answers| && answers[l].coherence.Some? && answers[l].coherence.value < 15.0)
    ensures (forall l :: 0 <= l < |answers| ==> answers[l].coherence.Some?) ==> r.Some?
  {
    if answers == [] then Some(false)
    else
      match answers[0].coherence
      case None => None
      case Some(x) =>
        if x < 15.0 then Some(true)
        else
          var rest := AnyBelow(answers[1..]);
          assert forall l :: 0 < l < |answers| ==> answers[l] == answers[1..][l - 1];
          rest
  }

  /** `lab_stats[lab]`: the lab's counters, or the fresh entry. */
  function TallyOf(stats: Dict<Tally>, lab: string): (t: Tally)
    ensures Balanced(stats) ==> t == NoTally || (Splits(t) && t.total >= 1)
  {
    match Get(stats, lab)
    case None => NoTally
    case Some(t) => t
  }

  /** One more run, ending on coherence when `coherenceBreak` holds and on novelty otherwise. */
  function Count(t: Tally, coherenceBreak: bool): Tally {
    if coherenceBreak then Tally(t.coherence + 1, t.novelty, t.total + 1)
    else Tally(t.coherence, t.novelty + 1, t.total + 1)
  }

  /** Sum of the `total` counters. */
  function TotalRuns(stats: Dict<Tally>): nat {
    if stats == [] then 0 else stats[0].1.total + TotalRuns(stats[1..])
  }

  /** Replacing a lab's counters changes the sum of totals by the difference. */
  lemma {:induction false} PutTotal(stats: Dict<Tally>, lab: string, t: Tally)
    ensures TotalRuns(Put(stats, lab, t)) + TallyOf(stats, lab).total == TotalRuns(stats) + t.total
  {
    if stats != [] && stats[0].0 != lab {
      PutTotal(stats[1..], lab, t);
    }
  }

  /** Counting one run of a lab keeps the tally balanced and adds one to the sum of totals. */
  lemma CountKeeps(stats: Dict<Tally>, lab: string, b: bool)
    ensures Balanced(stats) ==> Balanced(Put(stats, lab, Count(TallyOf(stats, lab), b)))
    ensures TotalRuns(Put(stats, lab, Count(TallyOf(stats, lab), b))) == TotalRuns(stats) + 1
  {
    PutEntries(stats, lab, Count(TallyOf(stats, lab), b));
    PutTotal(stats, lab, Count(TallyOf(stats, lab), b));
  }

  /**
   * The tally after the runs (answer lists) of one temperature group: each run adds one to
   * its lab's total and to the count of the reason it ended on.
   */
  function TallyQuestions(stats: Dict<Tally>, lab: string, qs: Questions): (r: Option<Dict<Tally>>)
    ensures Balanced(stats) && r.Some? ==> Balanced(r.value)
    ensures r.Some? ==> TotalRuns(r.value) == TotalRuns(stats) + |qs|
  {
    if qs == [] then Some(stats)
    else
      match TallyQuestions(stats, lab, qs[..|qs| - 1])
      case None => None
      case Some(s) =>
        match AnyBelow(qs[|qs| - 1].1)
        case None => None
        case Some(b) =>
          CountKeeps(s, lab, b);
          Some(Put(s, lab, Count(TallyOf(s, lab), b)))
  }

  /** The tally after every temperature group of one model. */
  function TallyTemps(stats: Dict<Tally>, lab: string, ts: Temps): (r: Option<Dict<Tally>>)
    ensures Balanced(stats) && r.Some? ==> Balanced(r.value)
    ensures r.Some? ==> TotalRuns(r.value) == TotalRuns(stats) + RunCount(ts)
  {
    if ts == [] then Some(stats)
    else
      match TallyTemps(stats, lab, ts[..|ts| - 1])
      case None => None
      case Some(s) => TallyQuestions(s, lab, ts[|ts| - 1].1)
  }

  /** Number of runs stored for all models. */
  function AllRuns(ms: Models): nat {
    if ms == [] then 0 else AllRuns(ms[..|ms| - 1]) + RunCount(ms[|ms| - 1].1)
  }

  /** `lab_stats` after all models, each counted under its lab; `None` on a KeyError. */
  function ExitTally(ms: Models): (r: Option<Dict<Tally>>)
    ensures r.Some? ==> Balanced(r.value) && TotalRuns(r.value) == AllRuns(ms)
  {
    if ms == [] then Some([])
    else
      match ExitTally(ms[..|ms| - 1])
      case None => None
      case Some(s) => TallyTemps(s, CompanyOf(ms[|ms| - 1].0), ms[|ms| - 1].1)
  }

  /** One more answer list counts one run, or fails the tally when a score is missing. */
  lemma QuestionsStep(stats: Dict<Tally>, lab: string, qs: Questions, k: nat, cur: Dict<Tally>)
    requires k < |qs| && TallyQuestions(stats, lab, qs[..k]) == Some(cur)
    ensures AnyBelow(qs[k].1).None? ==> TallyQuestions(stats, lab, qs[..k + 1]) == None
    ensures AnyBelow(qs[k].1).Some? ==>
      TallyQuestions(stats, lab, qs[..k + 1]) == Some(Put(cur, lab, Count(TallyOf(cur, lab), AnyBelow(qs[k].1).value)))
  {
    var t := qs[..k + 1];
    assert t[..|t| - 1] == qs[..k] && t[|t| - 1] == qs[k];
  }

  /** One more temperature group tallies its answer lists on top of the tally so far. */
  lemma TempsStep(stats: Dict<Tally>, lab: string, ts: Temps, g: nat, cur: Dict<Tally>)
    requires g < |ts| && TallyTemps(stats, lab, ts[..g]) == Some(cur)
    ensures TallyTemps(stats, lab, ts[..g + 1]) == TallyQuestions(cur, lab, ts[g].1)
  {
    assert ts[..g + 1][..g] == ts[..g];
  }

  /** One more model tallies its groups under its lab on top of the tally so far. */
  lemma ModelsStep(ms: Models, i: nat, cur: Dict<Tally>)
    requires i < |ms| && ExitTally(ms[..i]) == Some(cur)
    ensures ExitTally(ms[..i + 1]) == TallyTemps(cur, CompanyOf(ms[i].0), ms[i].1)
  {
    assert ms[..i + 1][..i] == ms[..i];
  }

  /** Once an answer list fails, the tally of any longer prefix of the questions fails too. */
  lemma {:induction false} QuestionsAbort(stats: Dict<Tally>, lab: string, qs: Questions, k: nat)
    requires k <= |qs| && TallyQuestions(stats, lab, qs[..k]) == None
    ensures TallyQuestions(stats, lab, qs) == None
    decreases |qs| - k
  {
    if k < |qs| {
      assert qs[..k + 1][..k] == qs[..k];
      if k + 1 == |qs| {
        assert qs[..k + 1] == qs;
      } else {
        QuestionsAbort(stats, lab, qs, k + 1);
      }
    } else {
      assert qs[..k] == qs;
    }
  }

  /** Once a temperature group fails, the tally of any longer prefix of the groups fails too. */
  lemma {:induction false} TempsAbort(stats: Dict<Tally>, lab: string, ts: Temps, k: nat)
    requires k <= |ts| && TallyTemps(stats, lab, ts[..k]) == None
    ensures TallyTemps(stats, lab, ts) == None
    decreases |ts| - k
  {
    if k < |ts| {
      assert ts[..k + 1][..k] == ts[..k];
      if k + 1 == |ts| {
        assert ts[..k + 1] == ts;
      } else {
        TempsAbort(stats, lab, ts, k + 1);
      }
    } else {
      assert ts[..k] == ts;
    }
  }

  /** Once a model fails, the tally of any longer prefix of the models fails too. */
  lemma {:induction false} ModelsAbort(ms: Models, k: nat)
    requires k <= |ms| && ExitTally(ms[..k]) == None
    ensures ExitTally(ms) == None
    decreases |ms| - k
  {
    if k < |ms| {
      assert ms[..k + 1][..k] == ms[..k];
      if k + 1 == |ms| {
        assert ms[..k + 1] == ms;
      } else {
        ModelsAbort(ms, k + 1);
      }
    } else {
      assert ms[..k] == ms;
    }
  }

  /** The question loop of `plot_exit_reasons` for one temperature group. */
  method TallyGroup(stats: Dict<Tally>, lab: string, qs: Questions) returns (r: Option<Dict<Tally>>)
    ensures r == TallyQuestions(stats, lab, qs)
  {
    var cur := stats;
    for k := 0 to |qs|
      invariant TallyQuestions(stats, lab, qs[..k]) == Some(cur)
    {
      QuestionsStep(stats, lab, qs, k, cur);
      var answers := qs[k].1;
      var total := TallyOf(cur, lab);
      match AnyBelow(answers) {
        case None =>
          QuestionsAbort(stats, lab, qs, k + 1);
          return None;
        case Some(coherenceBreak) =>
          cur := Put(cur, lab, Count(total, coherenceBreak));
      }
    }
    assert qs[..|qs|] == qs;
    r := Some(cur);
  }

  /** The temperature loop of `plot_exit_reasons` for one model. */
  method TallyModel(stats: Dict<Tally>, lab: string, ts: Temps) returns (r: Option<Dict<Tally>>)
    ensures r == TallyTemps(stats, lab, ts)
  {
    var cur := stats;
    for g := 0 to |ts|
      invariant TallyTemps(stats, lab, ts[..g]) == Some(cur)
    {
      TempsStep(stats, lab, ts, g, cur);
      var next := TallyGroup(cur, lab, ts[g].1);
      if next.None? {
        TempsAbort(stats, lab, ts, g + 1);
        return None;
      }
      cur := next.value;
    }
    assert ts[..|ts|] == ts;
    r := Some(cur);
  }

  /** The counting loops of `plot_exit_reasons`; `None` when the results have no `models` or an answer lacks its coherence score. */
  method PlotExitReasons(results: ResultsDoc) returns (r: Option<Dict<Tally>>)
    ensures results.models.None? ==> r.None?
    ensures results.models.Some? ==> r == ExitTally(results.models.value)
  {
    if results.models.None? {
      return None;
    }
    var ms := results.models.value;
    var stats: Dict<Tally> := [];
    for i := 0 to |ms|
      invariant ExitTally(ms[..i]) == Some(stats)
    {
      ModelsStep(ms, i, stats);
      var lab := CompanyOf(ms[i].0);
      var next := TallyModel(stats, lab, ms[i].1);
      if next.None? {
        ModelsAbort(ms, i + 1);
        return None;
      }
      stats := next.value;
    }
    assert ms[..|ms|] == ms;
    r := Some(stats);
  }

  /** When every answer has a coherence score, the tally exists. */
  lemma {:induction false} ExitTallyDefined(ms: Models)
    requires ModelsCoherent(ms)
    ensures ExitTally(ms).Some?
  {
    if ms != [] {
      var p := ms[..|ms| - 1];
      assert forall i :: 0 <= i < |p| ==> p[i] == ms[i];
      ExitTallyDefined(p);
      TempsDefined(ExitTally(p).value, CompanyOf(ms[|ms| - 1].0), ms[|ms| - 1].1);
    }
  }

  /** Every answer of a model has a coherence score. */
  predicate TempsCoherent(ts: Temps) {
    forall j, k, l :: 0 <= j < |ts| && 0 <= k < |ts[j].1| && 0 <= l < |ts[j].1[k].1| ==> ts[j].1[k].1[l].coherence.Some?
  }

  lemma {:induction false} TempsDefined(stats: Dict<Tally>, lab: string, ts: Temps)
    requires TempsCoherent(ts)
    ensures TallyTemps(stats, lab, ts).Some?
  {
    if ts != [] {
      var p := ts[..|ts| - 1];
      assert forall j :: 0 <= j < |p| ==> p[j] == ts[j];
      TempsDefined(stats, lab, p);
      QuestionsDefined(TallyTemps(stats, lab, p).value, lab, ts[|ts| - 1].1);
    }
  }

  lemma {:induction false} QuestionsDefined(stats: Dict<Tally>, lab: string, qs: Questions)
    requires forall k, l :: 0 <= k < |qs| && 0 <= l < |qs[k].1| ==> qs[k].1[l].coherence.Some?
    ensures TallyQuestions(stats, lab, qs).Some?
  {
    if qs != [] {
      var p := qs[..|qs| - 1];
      assert forall k :: 0 <= k < |p| ==> p[k] == qs[k];
      QuestionsDefined(stats, lab, p);
    }
  }

  /** One lab's bar: its share of coherence and novelty exits, in percent. */
  datatype Share = Share(lab: string, coherencePct: real, noveltyPct: real)

  /** The bars `plot_exit_reasons` draws: every lab with runs, in first-seen order. */
  function Shares(stats: Dict<Tally>): seq<Share> {
    if stats == [] then []
    else
      var t := stats[|stats| - 1].1;
      Shares(stats[..|stats| - 1])
        + (if t.total > 0 then [Share(stats[|stats| - 1].0, (t.coherence as real / t.total as real) * 100.0, (t.novelty as real / t.total as real) * 100.0)] else [])
  }

  /** The two percentages of a balanced lab add up to 100 and lie in [0, 100]. */
  lemma SharePercent(t: Tally)
    requires Splits(t) && t.total > 0
    ensures (t.coherence as real / t.total as real) * 100.0 + (t.novelty as real / t.total as real) * 100.0 == 100.0
    ensures 0.0 <= (t.coherence as real / t.total as real) * 100.0 <= 100.0
  {
    var n := t.total as real;
    var x, y := t.coherence as real / n, t.novelty as real / n;
    assert t.coherence as real + t.novelty as real == n;
    assert x + y == (t.coherence as real + t.novelty as real) / n;
    assert n / n == 1.0;
    assert 0.0 <= x && 0.0 <= y;
  }

  /** For a balanced tally every lab gets a bar, and each bar's two parts add up to 100 percent. */
  lemma {:induction false} SharesComplete(stats: Dict<Tally>)
    requires Balanced(stats)
    ensures |Shares(stats)| == |stats|
    ensures forall i :: 0 <= i < |stats| ==>
      (Shares(stats)[i].lab == stats[i].0 && Shares(stats)[i].coherencePct + Shares(stats)[i].noveltyPct == 100.0)
  {
    if stats != [] {
      var p := stats[..|stats| - 1];
      assert forall x :: x in p ==> x in stats;
      SharesComplete(p);
      assert stats[|stats| - 1] in stats;
      SharePercent(stats[|stats| - 1].1);
    }
  }

  /** The loop building the bars' lists in `plot_exit_reasons`. */
  method ExitShares(stats: Dict<Tally>) returns (bars: seq<Share>)
    ensures bars == Shares(stats)
  {
    bars := [];
    for i := 0 to |stats|
      invariant bars == Shares(stats[..i])
    {
      assert stats[..i + 1][..i] == stats[..i];
      var lab, t := stats[i].0, stats[i].1;
      if t.total > 0 {
        bars := bars + [Share(lab, (t.coherence as real / t.total as real) * 100.0, (t.novelty as real / t.total as real) * 100.0)];
      }
    }
    assert stats[..|stats|] == stats;
  }

  // ----- create_best_timeline_plots -----

  /** One row of the release table; the `%Y-%m-%d` date is given as a day number. */
  datatype Release = Release(model: string, date: int)

  /** A model placed on the timeline: its best answer count, release date and lab. */
  datatype Candidate = Candidate(model: string, answers: real, date: int, company: string)

  /** The pairs of `release_dict`'s comprehension, in table order. */
  function ReleaseEntries(rs: seq<Release>): (entries: Dict<int>)
    ensures |entries| == |rs|
    ensures forall i :: 0 <= i < |rs| ==> entries[i] == (rs[i].model, rs[i].date)
  {
    seq(|rs|, i requires 0 <= i < |rs| => (rs[i].model, rs[i].date))
  }

  /** `release_dict`: a model listed twice keeps its last date. */
  function ReleaseDict(rs: seq<Release>): Dict<int> {
    PutAll([], ReleaseEntries(rs))
  }

  /** The timeline's entries, in `max_scores` order: models with a release date, `x-ai` skipped. */
  function Candidates(table: Dict<Scores>, rel: Dict<int>): (cs: seq<Candidate>)
    ensures |cs| <= |table|
    ensures forall k :: 0 <= k < |cs| ==>
      cs[k].company == CompanyOf(cs[k].model) && cs[k].company != "x-ai" && Get(rel, cs[k].model) == Some(cs[k].date)
  {
    if table == [] then []
    else
      var name := table[|table| - 1].0;
      Candidates(table[..|table| - 1], rel)
        + match Get(rel, name)
          case None => []
          case Some(date) => if CompanyOf(name) == "x-ai" then [] else [Candidate(name, table[|table| - 1].1.answers, date, CompanyOf(name))]
  }

  function DateOf(c: Candidate): int {
    c.date
  }

  /** No earlier entry reaches the answer count of entry `i`. */
  predicate IsRecord(s: seq<Candidate>, i: nat)
    requires i < |s|
  {
    forall j :: 0 <= j < i ==> s[j].answers < s[i].answers
  }

  /** The entries that beat everything before them, in order. */
  function Records(s: seq<Candidate>): seq<Candidate> {
    if s == [] then []
    else Records(s[..|s| - 1]) + (if IsRecord(s, |s| - 1) then [s[|s| - 1]] else [])
  }

  /** `best_so_far` after the first `n` entries: their highest answer count, `None` (minus infinity) for none. */
  predicate IsBest(s: seq<Candidate>, n: nat, best: Option<real>)
    requires n <= |s|
  {
    (best.None? <==> n == 0)
    && (best.Some? ==>
      (forall j :: 0 <= j < n ==> s[j].answers <= best.value) && (exists j :: 0 <= j < n && s[j].answers == best.value))
  }

  /** The records of one more entry: the earlier records, then the entry if it beats all before it. */
  lemma RecordsStep(s: seq<Candidate>, i: nat)
    requires i < |s|
    ensures Records(s[..i + 1]) == Records(s[..i]) + (if forall j :: 0 <= j < i ==> s[j].answers < s[i].answers then [s[i]] else [])
  {
    var p := s[..i + 1];
    assert p[..i] == s[..i];
    assert forall j :: 0 <= j <= i ==> p[j] == s[j];
    assert IsRecord(p, i) <==> forall j :: 0 <= j < i ==> s[j].answers < s[i].answers;
  }

  /** The running-max loop: keep an entry when it beats `best_so_far`, which then becomes its count. */
  method KeepRecords(s: seq<Candidate>) returns (kept: seq<Candidate>)
    ensures kept == Records(s)
  {
    kept := [];
    var best: Option<real> := None;
    for i := 0 to |s|
      invariant kept == Records(s[..i])
      invariant IsBest(s, i, best)
    {
      var m := s[i];
      RecordsStep(s, i);
      if best.None? || m.answers > best.value {
        kept := kept + [m];
        best := Some(m.answers);
      } else {
        var w :| 0 <= w < i && s[w].answers == best.value;
        assert !(s[w].answers < s[i].answers);
      }
    }
    assert s[..|s|] == s;
  }

  /** Records are entries of the sequence, and each one beats every entry before it. */
  lemma {:induction false} RecordsExactly(s: seq<Candidate>)
    ensures forall x :: x in Records(s) ==> exists i :: 0 <= i < |s| && s[i] == x && IsRecord(s, i)
    ensures forall i :: 0 <= i < |s| && IsRecord(s, i) ==> s[i] in Records(s)
  {
    if s != [] {
      var p := s[..|s| - 1];
      RecordsExactly(p);
      forall i | 0 <= i < |p| ensures IsRecord(p, i) <==> IsRecord(s, i) {
        assert forall j :: 0 <= j <= i ==> p[j] == s[j];
      }
    }
  }

  /** The kept answer counts strictly increase along the timeline. */
  lemma {:induction false} RecordsIncrease(s: seq<Candidate>)
    ensures forall a, b :: 0 <= a < b < |Records(s)| ==> Records(s)[a].answers < Records(s)[b].answers
  {
    if s != [] {
      var p := s[..|s| - 1];
      RecordsIncrease(p);
      RecordsExactly(p);
      if IsRecord(s, |s| - 1) {
        var r := Records(p);
        forall a | 0 <= a < |r| ensures r[a].answers < s[|s| - 1].answers {
          assert r[a] in r;
          var i :| 0 <= i < |p| && p[i] == r[a] && IsRecord(p, i);
        }
      }
    }
  }

  /** Records come no later than a date every entry comes no later than. */
  lemma {:induction false} RecordsBounded(s: seq<Candidate>, date: int)
    requires forall j :: 0 <= j < |s| ==> DateOf(s[j]) <= date
    ensures forall k :: 0 <= k < |Records(s)| ==> DateOf(Records(s)[k]) <= date
  {
    if s != [] {
      var p := s[..|s| - 1];
      forall j | 0 <= j < |p| ensures DateOf(p[j]) <= date {
        assert p[j] == s[j];
      }
      RecordsBounded(p, date);
    }
  }

  /** Taken from entries sorted by date, the records are sorted by date too. */
  lemma {:induction false} RecordsSorted(s: seq<Candidate>)
    requires SortedBy(s, DateOf)
    ensures SortedBy(Records(s), DateOf)
  {
    if s != [] {
      var p, x := s[..|s| - 1], s[|s| - 1];
      forall k | 0 < k < |p| ensures DateOf(p[k - 1]) <= DateOf(p[k]) {
        assert p[k - 1] == s[k - 1] && p[k] == s[k];
      }
      RecordsSorted(p);
      var r := Records(p);
      if IsRecord(s, |s| - 1) && r != [] {
        forall j | 0 <= j < |p| ensures DateOf(p[j]) <= DateOf(x) {
          SortedByPairs(s, DateOf, j, |s| - 1);
          assert s[j] == p[j];
        }
        RecordsBounded(p, DateOf(x));
        var t := r + [x];
        assert Records(s) == t;
        forall k | 0 < k < |t| ensures DateOf(t[k - 1]) <= DateOf(t[k]) {
          if k < |r| {
            assert t[k - 1] == r[k - 1] && t[k] == r[k];
          }
        }
      }
    }
  }

  /** The gathering loop of `create_best_timeline_plots`. */
  method GatherCandidates(table: Dict<Scores>, rel: Dict<int>) returns (cs: seq<Candidate>)
    ensures cs == Candidates(table, rel)
  {
    cs := [];
    for i := 0 to |table|
      invariant cs == Candidates(table[..i], rel)
    {
      assert table[..i + 1][..i] == table[..i];
      var model, scores := table[i].0, table[i].1;
      var date := Get(rel, model);
      if date.Some? {
        var company := CompanyOf(model);
        if company == "x-ai" {
          continue;
        }
        cs := cs + [Candidate(model, scores.answers, date.value, company)];
      }
    }
    assert table[..|table|] == table;
  }

  /**
   * The models `create_best_timeline_plots` plots: the maximum scores (default thresholds),
   * the models with a release date but not `x-ai`, stably sorted by date, then the running-max filter.
   */
  method BestTimeline(results: ResultsDoc, releases: seq<Release>) returns (kept: seq<Candidate>)
    requires results.models.Some? && ModelsScored(results.models.value)
    ensures kept == Records(SortBy(Candidates(MaxScoresTable(results.models.value, 0.15, 15.0), ReleaseDict(releases)), DateOf))
    ensures SortedBy(kept, DateOf)
    ensures forall a, b :: 0 <= a < b < |kept| ==> kept[a].answers < kept[b].answers
  {
    var maxScores := GetMaxScores(results, 0.15, 15.0);
    var rel := ReleaseDict(releases);
    var all := GatherCandidates(maxScores, rel);
    var sorted := SortBy(all, DateOf);
    kept := KeepRecords(sorted);
    RecordsSorted(sorted);
    RecordsIncrease(sorted);
  }
}
