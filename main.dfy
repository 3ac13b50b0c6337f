/**
 * main.py: `benchmark_model` runs one benchmark task per combination of model,
 * temperature, run index and question. The sequential mode runs them in nested loops and
 * reports a failing task without stopping; the threaded mode submits the same combinations.
 */
module BenchmarkDriver {
  import opened Wrappers

  /** The parameters `benchmark_question` receives for one task. */
  datatype Task = Task(question: string, model: string, temperature: real)

  /**
   * `questions[:n] if n else questions`: `None` and 0 keep every question; a positive `n`
   * keeps the first `n`; a negative `n` drops the last `-n`, as Python slicing does.
   */
  function QuestionsToUse(questions: seq<string>, numQuestions: Option<int>): (r: seq<string>)
    ensures r <= questions
    ensures numQuestions.None? || numQuestions.value == 0 ==> r == questions
    ensures numQuestions.Some? && numQuestions.value > 0 ==>
      |r| == if numQuestions.value < |questions| then numQuestions.value else |questions|
    ensures numQuestions.Some? && numQuestions.value < 0 ==>
      |r| == if |questions| + numQuestions.value > 0 then |questions| + numQuestions.value else 0
  {
    if numQuestions.None? || numQuestions.value == 0 then questions
    else
      var n := numQuestions.value;
      var stop := if n >= 0 then n else |questions| + n;
      var end := if stop < 0 then 0 else if stop > |questions| then |questions| else stop;
      questions[..end]
  }

  /** `--temp-range` gives the 11 temperatures 0.0, 0.1, ..., 1.0; otherwise the one given. */
  function Temperatures(tempRange: bool, temperature: real): (r: seq<real>)
    ensures tempRange ==> |r| == 11 && forall k :: 0 <= k < 11 ==> r[k] == k as real / 10.0
    ensures !tempRange ==> r == [temperature]
  {
    if tempRange then seq(11, k => k as real / 10.0) else [temperature]
  }

  /** `itertools.product(models, temperatures)`: model-major pairs. */
  function Product(models: seq<string>, temps: seq<real>): seq<(string, real)> {
    if models == [] then []
    else Product(models[..|models| - 1], temps) + seq(|temps|, j requires 0 <= j < |temps| => (models[|models| - 1], temps[j]))
  }

  /** One run over all questions for one (model, temperature) pair. */
  function QuestionBlock(pair: (string, real), questions: seq<string>): seq<Task> {
    seq(|questions|, i requires 0 <= i < |questions| => Task(questions[i], pair.0, pair.1))
  }

  /** `for _ in range(runs): for question in questions` for one pair. */
  function RunBlock(pair: (string, real), runs: int, questions: seq<string>): seq<Task>
    decreases runs
  {
    if runs <= 0 then [] else RunBlock(pair, runs - 1, questions) + QuestionBlock(pair, questions)
  }

  /**
   * The tasks in the order both modes issue them: the comprehension of the threaded mode and
   * the loops of the sequential mode nest product, run index and question the same way.
   */
  function Tasks(pairs: seq<(string, real)>, runs: int, questions: seq<string>): seq<Task> {
    if pairs == [] then []
    else Tasks(pairs[..|pairs| - 1], runs, questions) + RunBlock(pairs[|pairs| - 1], runs, questions)
  }

  /** The number of tasks is |models| * |temperatures| * runs * |questions|. */
  lemma {:induction false} TasksSize(models: seq<string>, temps: seq<real>, runs: nat, questions: seq<string>)
    ensures |Tasks(Product(models, temps), runs, questions)| == (|models| * |temps|) * (runs * |questions|)
  {
    ProductSize(models, temps);
    TasksSizeOfPairs(Product(models, temps), runs, questions);
  }

  lemma {:induction false} ProductSize(models: seq<string>, temps: seq<real>)
    ensures |Product(models, temps)| == |models| * |temps|
  {
    if models != [] {
      ProductSize(models[..|models| - 1], temps);
      assert (|models| - 1) * |temps| + |temps| == |models| * |temps|;
    }
  }

  lemma {:induction false} RunBlockSize(pair: (string, real), runs: nat, questions: seq<string>)
    ensures |RunBlock(pair, runs, questions)| == runs * |questions|
  {
    if runs > 0 {
      RunBlockSize(pair, runs - 1, questions);
      assert (runs - 1) * |questions| + |questions| == runs * |questions|;
    }
  }

  lemma {:induction false} TasksSizeOfPairs(pairs: seq<(string, real)>, runs: nat, questions: seq<string>)
    ensures |Tasks(pairs, runs, questions)| == |pairs| * (runs * |questions|)
  {
    if pairs != [] {
      TasksSizeOfPairs(pairs[..|pairs| - 1], runs, questions);
      RunBlockSize(pairs[|pairs| - 1], runs, questions);
      assert (|pairs| - 1) * (runs * |questions|) + runs * |questions| == |pairs| * (runs * |questions|);
    }
  }

  /** A pair is in the product exactly when its model and its temperature are. */
  lemma {:induction false} ProductMembers(models: seq<string>, temps: seq<real>, p: (string, real))
    ensures p in Product(models, temps) <==> p.0 in models && p.1 in temps
  {
    if models != [] {
      var front := models[..|models| - 1];
      ProductMembers(front, temps, p);
      var block := seq(|temps|, j requires 0 <= j < |temps| => (models[|models| - 1], temps[j]));
      assert p in block <==> p.0 == models[|models| - 1] && p.1 in temps by {
        if p.0 == models[|models| - 1] && p.1 in temps {
          var j :| 0 <= j < |temps| && temps[j] == p.1;
          assert block[j] == p;
        }
      }
      assert models == front + [models[|models| - 1]];
    }
  }

  lemma {:induction false} RunBlockMembers(pair: (string, real), runs: int, questions: seq<string>, t: Task)
    ensures t in RunBlock(pair, runs, questions) <==>
      runs > 0 && t.question in questions && t.model == pair.0 && t.temperature == pair.1
    decreases runs
  {
    if runs > 0 {
      RunBlockMembers(pair, runs - 1, questions, t);
      var block := QuestionBlock(pair, questions);
      if t.question in questions && t.model == pair.0 && t.temperature == pair.1 {
        var i :| 0 <= i < |questions| && questions[i] == t.question;
        assert block[i] == t;
      }
    }
  }

  lemma {:induction false} TasksMembers(pairs: seq<(string, real)>, runs: int, questions: seq<string>, t: Task)
    ensures t in Tasks(pairs, runs, questions) <==>
      runs > 0 && t.question in questions && (t.model, t.temperature) in pairs
  {
    if pairs != [] {
      var front := pairs[..|pairs| - 1];
      TasksMembers(front, runs, questions, t);
      RunBlockMembers(pairs[|pairs| - 1], runs, questions, t);
      assert pairs == front + [pairs[|pairs| - 1]];
    }
  }

  /**
   * Every combination is issued, and nothing else: a task is issued exactly when its
   * question, model and temperature are among those asked for and at least one run is asked.
   */
  lemma TaskGridMembers(models: seq<string>, temps: seq<real>, runs: int, questions: seq<string>, t: Task)
    ensures t in Tasks(Product(models, temps), runs, questions) <==>
      runs > 0 && t.question in questions && t.model in models && t.temperature in temps
  {
    TasksMembers(Product(models, temps), runs, questions, t);
    ProductMembers(models, temps, (t.model, t.temperature));
  }

  /** What happened to one task of the sequential loop: it ran, and it raised or not. */
  datatype Report = Report(task: Task, raised: bool)

  /** The reports of `tasks` attempted in order, the first being call number `start`. */
  function Reports(tasks: seq<Task>, start: nat, raises: nat -> bool): (r: seq<Report>)
    ensures |r| == |tasks|
    ensures forall k :: 0 <= k < |tasks| ==> r[k] == Report(tasks[k], raises(start + k))
  {
    seq(|tasks|, k requires 0 <= k < |tasks| => Report(tasks[k], raises(start + k)))
  }

  /** Attempting two lists of tasks in turn reports the first, then the second numbered on. */
  lemma ReportsAppend(t1: seq<Task>, t2: seq<Task>, start: nat, raises: nat -> bool)
    ensures Reports(t1 + t2, start, raises) == Reports(t1, start, raises) + Reports(t2, start + |t1|, raises)
  {
    var a, b := Reports(t1 + t2, start, raises), Reports(t1, start, raises) + Reports(t2, start + |t1|, raises);
    forall k | 0 <= k < |a| ensures a[k] == b[k] {
      if k < |t1| {
        assert (t1 + t2)[k] == t1[k];
      } else {
        assert (t1 + t2)[k] == t2[k - |t1|];
      }
    }
  }

  /** The question loop of the sequential branch for one pair and run. */
  method AskQuestions(pair: (string, real), questions: seq<string>, start: nat, raises: nat -> bool)
    returns (out: seq<Report>)
    ensures out == Reports(QuestionBlock(pair, questions), start, raises)
  {
    out := [];
    for i := 0 to |questions|
      invariant |out| == i
      invariant forall k :: 0 <= k < i ==> out[k] == Report(Task(questions[k], pair.0, pair.1), raises(start + k))
    {
      var failed := raises(start + i);
      out := out + [Report(Task(questions[i], pair.0, pair.1), failed)];
    }
    ghost var spec := Reports(QuestionBlock(pair, questions), start, raises);
    forall k | 0 <= k < |out| ensures out[k] == spec[k] {
      assert QuestionBlock(pair, questions)[k] == Task(questions[k], pair.0, pair.1);
    }
  }

  /** The run loop of the sequential branch for one pair; no run when `runs` is not positive. */
  method RunPair(pair: (string, real), runs: int, questions: seq<string>, start: nat, raises: nat -> bool)
    returns (out: seq<Report>)
    ensures out == Reports(RunBlock(pair, runs, questions), start, raises)
  {
    out := [];
    var r := 0;
    while r < runs
      invariant 0 <= r <= if runs < 0 then 0 else runs
      invariant out == Reports(RunBlock(pair, r, questions), start, raises)
    {
      var more := AskQuestions(pair, questions, start + |out|, raises);
      ReportsAppend(RunBlock(pair, r, questions), QuestionBlock(pair, questions), start, raises);
      out := out + more;
      r := r + 1;
    }
    if runs < 0 {
      assert r == 0 && RunBlock(pair, runs, questions) == [];
    }
  }

  /**
   * The sequential branch. `raises(k)` says whether the k-th `benchmark_question` call raises;
   * the exception is reported and the loop goes on, so every task is attempted, in order,
   * whatever the others did.
   */
  method RunSequential(models: seq<string>, temps: seq<real>, runs: int, questions: seq<string>, raises: nat -> bool)
    returns (reports: seq<Report>)
    ensures |reports| == |Tasks(Product(models, temps), runs, questions)|
    ensures forall k :: 0 <= k < |reports| ==>
      reports[k] == Report(Tasks(Product(models, temps), runs, questions)[k], raises(k))
  {
    var pairs := Product(models, temps);
    reports := [];
    for p := 0 to |pairs|
      invariant reports == Reports(Tasks(pairs[..p], runs, questions), 0, raises)
    {
      var more := RunPair(pairs[p], runs, questions, |reports|, raises);
      assert pairs[..p + 1][..p] == pairs[..p];
      ReportsAppend(Tasks(pairs[..p], runs, questions), RunBlock(pairs[p], runs, questions), 0, raises);
      reports := reports + more;
    }
    assert pairs[..|pairs|] == pairs;
  }
}
