/**
 * creativity-game/src/components/CreativityGame.jsx: a human plays the benchmark. Each
 * answer to the current question is scored for coherence by a judge model and for
 * novelty against the player's earlier answers; once either score falls to its
 * threshold the game moves on to the next question.
 */
module CreativityGame {
  import opened Wrappers
  import opened Strings

  const Questions: seq<string> := [
    "How might you use a brick and a blanket?",
    "What architectural design features should be included in a tasteful home?",
    "Propose a solution to Los Angeles traffic.",
    "What activities might I include at a party for firefighters?",
    "How could we redesign the American education system to better prepare students for the 22nd century?"]

  const ResponseTimeLimit := 180
  const CoherenceThreshold := 15
  const NoveltyThreshold := 0.15

  // ---------------------------------------------------------------------------
  // The judge's reply: the regular expression <coherence_score>(\d+)</coherence_score>

  const ScoreOpen := "<coherence_score>"
  const ScoreClose := "</coherence_score>"

  /** The number of digits in the run starting at `q`. */
  function DigitRun(s: string, q: nat): (n: nat)
    requires q <= |s|
    ensures q + n <= |s| && AllDigits(s[q..q + n])
    ensures q + n == |s| || !IsDigit(s[q + n])
    decreases |s| - q
  {
    if q == |s| || !IsDigit(s[q]) then 0
    else
      var n := DigitRun(s, q + 1);
      assert s[q..q + 1 + n] == [s[q]] + s[q + 1..q + 1 + n];
      1 + n
  }

  /**
   * The digits the pattern captures when matched at position `p`. `\d+` is greedy and a
   * digit is never the `<` the closing tag starts with, so only the whole run can match.
   */
  function MatchAt(s: string, p: nat): (r: Option<string>)
    ensures r.Some? ==>
      |r.value| >= 1 && AllDigits(r.value) && OccursAt(s, ScoreOpen + r.value + ScoreClose, p)
  {
    if !OccursAt(s, ScoreOpen, p) then None
    else
      var q := p + |ScoreOpen|;
      var n := DigitRun(s, q);
      if n >= 1 && OccursAt(s, ScoreClose, q + n) then
        var d := s[q..q + n];
        assert s[p..q + n + |ScoreClose|] == s[p..q] + d + s[q + n..q + n + |ScoreClose|];
        Some(d)
      else None
  }

  /** `s.match(...)` without the global flag: the leftmost match at or after `p`. */
  function FirstMatch(s: string, p: nat): (r: Option<string>)
    ensures r.Some? ==> exists k :: p <= k <= |s| && MatchAt(s, k) == r && forall j :: p <= j < k ==> MatchAt(s, j).None?
    ensures r.None? ==> forall j :: p <= j <= |s| ==> MatchAt(s, j).None?
    decreases |s| + 1 - p
  {
    if p > |s| then None
    else if MatchAt(s, p).Some? then MatchAt(s, p)
    else FirstMatch(s, p + 1)
  }

  /**
   * The parse in `judgeAnswer`: `parseInt` of the digits of the first match; the function
   * throws when the reply has no match.
   */
  function ParseCoherence(reply: string): (r: Result<int>)
    ensures r.Failure? <==> forall j :: 0 <= j <= |reply| ==> MatchAt(reply, j).None?
    ensures r.Success? ==> r.value >= 0
  {
    match FirstMatch(reply, 0)
    case None => Failure("Invalid coherence score response format")
    case Some(d) => Success(DigitsValue(d))
  }

  /** A reply that opens with a tagged number is read as that number, whatever follows. */
  lemma ParseCoherenceOfScore(n: nat, rest: string)
    ensures ParseCoherence(ScoreOpen + NatToString(n) + ScoreClose + rest) == Success(n)
  {
    var s := ScoreOpen + NatToString(n) + ScoreClose + rest;
    ScoreMatchesAtStart(n, rest);
    assert FirstMatch(s, 0) == Some(NatToString(n));
    DigitsValueOfNat(n);
  }

  /** The pattern matches a tagged number at the very start, capturing its digits. */
  lemma ScoreMatchesAtStart(n: nat, rest: string)
    ensures MatchAt(ScoreOpen + NatToString(n) + ScoreClose + rest, 0) == Some(NatToString(n))
  {
    var d := NatToString(n);
    var s := ScoreOpen + d + ScoreClose + rest;
    var q := |ScoreOpen|;
    assert s[0..q] == ScoreOpen;
    assert s[q..q + |d|] == d;
    assert s[q + |d|] == ScoreClose[0];
    assert DigitRun(s, q) == |d| by {
      DigitRunOf(s, q, |d|);
    }
    assert s[q + |d|..q + |d| + |ScoreClose|] == ScoreClose;
  }

  /** `DigitRun` is the length of a digit run that is followed by a non-digit or the end. */
  lemma {:induction false} DigitRunOf(s: string, q: nat, n: nat)
    requires q + n <= |s| && AllDigits(s[q..q + n]) && (q + n == |s| || !IsDigit(s[q + n]))
    ensures DigitRun(s, q) == n
    decreases n
  {
    if n > 0 {
      assert IsDigit(s[q..q + n][0]);
      assert s[q + 1..q + n] == s[q..q + n][1..];
      DigitRunOf(s, q + 1, n - 1);
    }
  }

  // ---------------------------------------------------------------------------
  // Novelty

  /** The largest value of a non-empty sequence (`Math.max(...values)`). */
  function MaxOf(values: seq<real>): (m: real)
    requires |values| >= 1
    ensures forall i :: 0 <= i < |values| ==> values[i] <= m
    ensures exists i :: 0 <= i < |values| && values[i] == m
  {
    if |values| == 1 then values[0]
    else
      var m := MaxOf(values[..|values| - 1]);
      assert values[..|values| - 1][0] == values[0];
      if values[|values| - 1] > m then values[|values| - 1] else m
  }

  /**
   * `calculateNovelty`, given the cosine similarities of the new answer to each previous
   * answer: 1.0 when there is none, otherwise 1 minus the largest similarity.
   */
  function Novelty(similarities: seq<real>): (r: real)
    ensures similarities == [] ==> r == 1.0
    ensures forall i :: 0 <= i < |similarities| ==> r <= 1.0 - similarities[i]
    ensures similarities != [] ==> exists i :: 0 <= i < |similarities| && r == 1.0 - similarities[i]
  {
    if similarities == [] then 1.0 else 1.0 - MaxOf(similarities)
  }

  /** Novelty is decided by the closest previous answer: another answer can only lower it. */
  lemma NoveltyOfMore(similarities: seq<real>, x: real)
    requires similarities != []
    ensures Novelty(similarities + [x]) == if 1.0 - x < Novelty(similarities) then 1.0 - x else Novelty(similarities)
  {
    var s := similarities + [x];
    assert s[..|s| - 1] == similarities;
  }

  // ---------------------------------------------------------------------------
  // The clock

  /** JavaScript's `%`: the remainder takes the sign of the dividend. */
  function JsRem(a: int, b: int): (r: int)
    requires b > 0
    ensures a >= 0 ==> r == a % b
    ensures -b < r < b
  {
    if a >= 0 then a % b else -((-a) % b)
  }

  /** `s.padStart(2, '0')`. */
  function PadStart2(s: string): (r: string)
    ensures |r| == if |s| < 2 then 2 else |s|
  {
    if |s| == 0 then "00" else if |s| == 1 then "0" + s else s
  }

  /** `formatTime(seconds)`: minutes (`Math.floor(seconds / 60)`), a colon, then the seconds padded to two digits. */
  function FormatTime(seconds: int): string {
    IntToString(seconds / 60) + ":" + PadStart2(IntToString(JsRem(seconds, 60)))
  }

  /** For a non-negative time the two fields read back as the minutes and the two-digit seconds it is made of. */
  lemma FormatTimeParts(seconds: nat)
    ensures var parts := Split(FormatTime(seconds), ':');
      |parts| == 2 && |parts[1]| == 2 && AllDigits(parts[0]) && AllDigits(parts[1])
      && DigitsValue(parts[0]) * 60 + DigitsValue(parts[1]) == seconds
  {
    var mins, secs := NatToString(seconds / 60), PadStart2(NatToString(seconds % 60));
    assert FormatTime(seconds) == mins + [':'] + secs;
    assert AllDigits(secs) && |secs| == 2 by {
      if seconds % 60 < 10 {
        assert NatToString(seconds % 60) == [DigitChar(seconds % 60)];
      } else {
        assert |NatToString(seconds % 60)| == 2 by {
          assert NatToString(seconds % 60) == NatToString(seconds % 60 / 10) + [DigitChar(seconds % 60 % 10)];
        }
      }
    }
    assert ':' !in mins && ':' !in secs by {
      assert forall i :: 0 <= i < |mins| ==> IsDigit(mins[i]);
      assert forall i :: 0 <= i < |secs| ==> IsDigit(secs[i]);
    }
    SplitJoin([mins, secs], ':');
    assert Join([mins, secs], [':']) == mins + [':'] + secs;
    DigitsValueOfNat(seconds / 60);
    DigitsValueOfNat(seconds % 60);
    PaddedValue(NatToString(seconds % 60));
  }

  /** Padding with leading zeros keeps the value of a digit string. */
  lemma PaddedValue(s: string)
    requires AllDigits(s)
    ensures AllDigits(PadStart2(s)) && DigitsValue(PadStart2(s)) == DigitsValue(s)
  {
    if |s| == 0 {
      assert DigitsValue("00") == 10 * DigitsValue("0") + 0 by {
        assert "00"[..1] == "0";
      }
      assert DigitsValue("0") == 10 * DigitsValue("") + 0 by {
        assert "0"[..0] == "";
      }
    } else if |s| == 1 {
      var p := "0" + s;
      assert p[..1] == "0";
      assert DigitsValue("0") == 10 * DigitsValue("") + 0 by {
        assert "0"[..0] == "";
      }
      assert DigitsValue(s) == 10 * DigitsValue(s[..0]) + DigitValue(s[0]);
    }
  }

  // ---------------------------------------------------------------------------
  // The game

  datatype Status = Setup | Ready | Playing | Completed

  /** One scored answer of the player. */
  datatype Response = Response(text: string, coherence: int, novelty: real, timestamp: int)

  /** One point of the chart: the attempt number and its two scores (novelty in percent). */
  datatype ChartPoint = ChartPoint(attempt: nat, coherence: int, novelty: real)

  /** What the game saves for a finished question. */
  datatype QuestionResult = QuestionResult(question: string, responses: seq<Response>)

  /** `responses[q] || []`: the answers given to question `q`, none if it has no entry. */
  function ResponsesAt(responses: map<nat, seq<Response>>, q: nat): seq<Response> {
    if q in responses then responses[q] else []
  }

  /** An answer ends the question when either score has fallen to its threshold. */
  predicate ReachesThreshold(coherence: int, novelty: real) {
    coherence <= CoherenceThreshold || novelty <= NoveltyThreshold
  }

  /** The component's state hooks; the API keys, the timer's interval and the rendering are not modelled. */
  datatype State = State(
    currentQuestion: nat,
    userInput: string,
    responses: map<nat, seq<Response>>,
    timeLeft: int,
    gameStatus: Status,
    message: string,
    chartData: seq<ChartPoint>,
    isEvaluating: bool,
    results: seq<QuestionResult>)

  /** The initial state of the `useState` hooks. */
  const Initial := State(0, "", map[], ResponseTimeLimit, Setup, "", [], false, [])

  /** The question index always names one of the questions. */
  predicate ValidState(s: State) {
    s.currentQuestion < |Questions|
  }

  /**
   * The two evaluations of `handleSubmit`: the judge's score, then the novelty (no service
   * call when there is no previous answer). `None` when either call or the parse fails.
   */
  function Evaluate(previous: seq<Response>, reply: Result<string>, similarities: Result<seq<real>>): (r: Option<(int, real)>)
    ensures r.Some? ==> reply.Success? && ParseCoherence(reply.value) == Success(r.value.0)
    ensures r.Some? && previous == [] ==> r.value.1 == 1.0
    ensures r.Some? && previous != [] ==> similarities.Success? && r.value.1 == Novelty(similarities.value)
    ensures reply.Success? && ParseCoherence(reply.value).Success? && (previous == [] || similarities.Success?) ==> r.Some?
  {
    if reply.Failure? then None
    else
      match ParseCoherence(reply.value)
      case Failure(_) => None
      case Success(coherence) =>
        if previous == [] then Some((coherence, 1.0))
        else if similarities.Failure? then None
        else Some((coherence, Novelty(similarities.value)))
  }

  const ErrorMessage := "Error evaluating response. Please try again."
  const ThresholdMessage := "Threshold reached! Moving to next question..."

  /**
   * `handleSubmit`, with the two service calls as inputs: `reply` is the judge's text (or
   * the failed call) and `similarities` the comparison with each previous answer (or the
   * failed call); `now` is `Date.now()`. Besides the new state it gives the view of
   * `responses` held by the `moveToNextQuestion` it schedules, when it schedules one.
   */
  function SubmitStep(s: State, reply: Result<string>, similarities: Result<seq<real>>, now: int): (State, Option<map<nat, seq<Response>>>) {
    if IsBlank(s.userInput) || s.isEvaluating then (s, None)
    else
      match Evaluate(ResponsesAt(s.responses, s.currentQuestion), reply, similarities)
      case None => (s.(message := ErrorMessage, isEvaluating := false), None)
      case Some(scores) => RecordStep(s, scores.0, scores.1, now)
  }

  /** The scored branch of `handleSubmit`: the answer is stored and charted, then the thresholds decide. */
  function RecordStep(s: State, coherence: int, novelty: real, now: int): (State, Option<map<nat, seq<Response>>>) {
    var previous := ResponsesAt(s.responses, s.currentQuestion);
    var s1 := s.(
      responses := s.responses[s.currentQuestion := previous + [Response(s.userInput, coherence, novelty, now)]],
      chartData := s.chartData + [ChartPoint(|previous| + 1, coherence, novelty * 100.0)],
      isEvaluating := false);
    if ReachesThreshold(coherence, novelty) then (s1.(message := ThresholdMessage), Some(s.responses))
    else (s1.(userInput := "", timeLeft := ResponseTimeLimit), None)
  }

  /**
   * `moveToNextQuestion`, where `seen` is the `responses` value of the render whose closure
   * runs it. Before the last question it saves the question's answers and clears the board
   * for the next one; at the last question it gives the final results (which the page
   * downloads) and ends the game.
   */
  function MoveStep(s: State, seen: map<nat, seq<Response>>): (State, Option<seq<QuestionResult>>)
    requires ValidState(s)
  {
    var saved := QuestionResult(Questions[s.currentQuestion], ResponsesAt(seen, s.currentQuestion));
    if s.currentQuestion < |Questions| - 1 then
      (s.(results := s.results + [saved], currentQuestion := s.currentQuestion + 1, userInput := "",
          timeLeft := ResponseTimeLimit, chartData := [], message := ""), None)
    else (s.(gameStatus := Completed), Some(s.results + [saved]))
  }

  /** `startGame`: play begins with the full answer time. */
  function StartStep(s: State): State {
    s.(gameStatus := Playing, timeLeft := ResponseTimeLimit)
  }

  const KeysValidMessage := "API keys validated successfully!"
  const KeysInvalidMessage := "One or both API keys are invalid. Please check and try again."

  /**
   * `validateApiKeys`, where `keysWork` says whether both test calls succeeded: the game
   * becomes ready, or only the message changes.
   */
  function ValidateStep(s: State, keysWork: bool): (t: State)
    ensures t.gameStatus == (if keysWork then Ready else s.gameStatus)
    ensures t.message == (if keysWork then KeysValidMessage else KeysInvalidMessage)
    ensures t.(gameStatus := s.gameStatus, message := s.message) == s
  {
    if keysWork then s.(gameStatus := Ready, message := KeysValidMessage)
    else s.(message := KeysInvalidMessage)
  }

  /** One second of the timer effect: the clock runs down only while playing with time left. */
  function TickStep(s: State): State {
    if s.gameStatus == Playing && s.timeLeft > 0 then s.(timeLeft := s.timeLeft - 1) else s
  }

  /** `n` seconds of the timer effect. */
  function Ticks(s: State, n: nat): State {
    if n == 0 then s else TickStep(Ticks(s, n - 1))
  }

  /**
   * While playing, the clock reaches 0 after exactly `timeLeft` seconds, passing every value
   * in between, stays at 0 afterwards and changes nothing else.
   */
  lemma {:induction false} TicksRunDown(s: State, n: nat)
    requires s.gameStatus == Playing && s.timeLeft >= 0
    ensures Ticks(s, n).timeLeft == if n <= s.timeLeft then s.timeLeft - n else 0
    ensures Ticks(s, n) == s.(timeLeft := Ticks(s, n).timeLeft)
  {
    if n > 0 {
      TicksRunDown(s, n - 1);
    }
  }

  /**
   * `handleTimeUp`: a non-blank input is submitted; otherwise the game moves on at once,
   * with the answers as they are. Gives the state, the `responses` seen by a scheduled move
   * and the downloaded results.
   */
  function TimeUpStep(s: State, reply: Result<string>, similarities: Result<seq<real>>, now: int): (State, Option<map<nat, seq<Response>>>, Option<seq<QuestionResult>>)
    requires ValidState(s)
  {
    if !IsBlank(s.userInput) then
      var (t, scheduled) := SubmitStep(s, reply, similarities, now);
      (t, scheduled, None)
    else
      var (t, download) := MoveStep(s, s.responses);
      (t, None, download)
  }

  /** At time-up with a blank input, the question is saved with every answer given to it. */
  lemma TimeUpBlankSavesAll(s: State, reply: Result<string>, similarities: Result<seq<real>>, now: int)
    requires ValidState(s) && IsBlank(s.userInput)
    ensures var (t, scheduled, download) := TimeUpStep(s, reply, similarities, now);
      && scheduled.None?
      && (s.currentQuestion < |Questions| - 1 ==>
            t.currentQuestion == s.currentQuestion + 1
            && t.results == s.results + [QuestionResult(Questions[s.currentQuestion], ResponsesAt(s.responses, s.currentQuestion))])
      && (s.currentQuestion == |Questions| - 1 ==>
            t.gameStatus == Completed
            && download == Some(s.results + [QuestionResult(Questions[s.currentQuestion], ResponsesAt(s.responses, s.currentQuestion))]))
  {
  }

  /** A blank input, or an evaluation still running, makes submitting a no-op. */
  lemma SubmitIgnored(s: State, reply: Result<string>, similarities: Result<seq<real>>, now: int)
    requires IsBlank(s.userInput) || s.isEvaluating
    ensures SubmitStep(s, reply, similarities, now) == (s, None)
  {
  }

  /** A scored answer is recorded by the scored branch, whatever `isEvaluating` was set to while the calls ran. */
  lemma SubmitRecords(s: State, reply: Result<string>, similarities: Result<seq<real>>, now: int)
    requires !IsBlank(s.userInput) && !s.isEvaluating
    requires Evaluate(ResponsesAt(s.responses, s.currentQuestion), reply, similarities).Some?
    ensures var scores := Evaluate(ResponsesAt(s.responses, s.currentQuestion), reply, similarities).value;
      SubmitStep(s, reply, similarities, now) == RecordStep(s.(isEvaluating := true), scores.0, scores.1, now)
  {
    var scores := Evaluate(ResponsesAt(s.responses, s.currentQuestion), reply, similarities).value;
    assert SubmitStep(s, reply, similarities, now) == RecordStep(s, scores.0, scores.1, now);
    RecordIgnoresEvaluating(s, scores.0, scores.1, now);
  }

  /** The scored branch resets `isEvaluating` and reads nothing else of it. */
  lemma RecordIgnoresEvaluating(s: State, coherence: int, novelty: real, now: int)
    ensures RecordStep(s.(isEvaluating := true), coherence, novelty, now) == RecordStep(s, coherence, novelty, now)
  {
    var s' := s.(isEvaluating := true);
    assert s'.(isEvaluating := false) == s.(isEvaluating := false);
  }

  /** A failed call or an unreadable score records nothing: only the message changes. */
  lemma SubmitFailed(s: State, reply: Result<string>, similarities: Result<seq<real>>, now: int)
    requires !IsBlank(s.userInput) && !s.isEvaluating
    requires Evaluate(ResponsesAt(s.responses, s.currentQuestion), reply, similarities).None?
    ensures SubmitStep(s, reply, similarities, now) == (s.(message := ErrorMessage), None)
  {
  }

  /**
   * A scored answer is appended to the current question's answers, and to the chart as
   * attempt number (previous count + 1); the game moves on exactly when a score has reached
   * its threshold, and otherwise clears the input and restarts the clock.
   */
  lemma SubmitScored(s: State, reply: Result<string>, similarities: Result<seq<real>>, now: int)
    requires !IsBlank(s.userInput) && !s.isEvaluating
    requires Evaluate(ResponsesAt(s.responses, s.currentQuestion), reply, similarities).Some?
    ensures var (c, n) := Evaluate(ResponsesAt(s.responses, s.currentQuestion), reply, similarities).value;
      var previous := ResponsesAt(s.responses, s.currentQuestion);
      var (t, scheduled) := SubmitStep(s, reply, similarities, now);
      ResponsesAt(t.responses, s.currentQuestion) == previous + [Response(s.userInput, c, n, now)]
      && (forall q :: q != s.currentQuestion ==> ResponsesAt(t.responses, q) == ResponsesAt(s.responses, q))
      && t.chartData == s.chartData + [ChartPoint(|previous| + 1, c, n * 100.0)]
      && (scheduled.Some? <==> ReachesThreshold(c, n))
      && (!ReachesThreshold(c, n) ==> t.userInput == "" && t.timeLeft == ResponseTimeLimit)
      && t.currentQuestion == s.currentQuestion && t.results == s.results && !t.isEvaluating
  {
  }

  /** Moving on keeps the question index in range: it advances before the last question and ends the game at it. */
  lemma MoveStaysInRange(s: State, seen: map<nat, seq<Response>>)
    requires ValidState(s)
    ensures ValidState(MoveStep(s, seen).0)
    ensures s.currentQuestion < |Questions| - 1 ==>
      MoveStep(s, seen).0.currentQuestion == s.currentQuestion + 1 && MoveStep(s, seen).1.None?
    ensures s.currentQuestion == |Questions| - 1 ==>
      MoveStep(s, seen).0.gameStatus == Completed && MoveStep(s, seen).1.Some?
  {
  }

  /**
   * As written, the answer that crosses a threshold is missing from the saved results: the
   * move `handleSubmit` schedules runs with the `responses` of the render that submitted,
   * taken before the answer was added. In a fresh game, a first answer judged 5 is
   * recorded, yet the first question is saved with no answers.
   */
  lemma StaleMoveLosesAnswer()
    ensures var s := StartStep(Initial).(userInput := "a brick pillow");
      var (t, scheduled) := SubmitStep(s, Success(ScoreOpen + "5" + ScoreClose), Success([]), 0);
      scheduled.Some?
      && |ResponsesAt(t.responses, 0)| == 1
      && MoveStep(t, scheduled.value).0.results == [QuestionResult(Questions[0], [])]
  {
    var s := StartStep(Initial).(userInput := "a brick pillow");
    assert !IsJsSpace(s.userInput[0]);
    ParseCoherenceOfScore(5, "");
    assert NatToString(5) == "5";
    assert ScoreOpen + "5" + ScoreClose + "" == ScoreOpen + "5" + ScoreClose;
  }

  /**
   * The intended flow: the scheduled move reads the answers as they are when it runs, so
   * the saved question ends with the answer that crossed the threshold.
   */
  lemma MoveAfterThresholdSavesAnswer(s: State, reply: Result<string>, similarities: Result<seq<real>>, now: int)
    requires ValidState(s) && s.currentQuestion < |Questions| - 1
    requires !IsBlank(s.userInput) && !s.isEvaluating
    requires SubmitStep(s, reply, similarities, now).1.Some?
    ensures var t := SubmitStep(s, reply, similarities, now).0;
      var u := MoveStep(t, t.responses).0;
      var saved := u.results[|u.results| - 1].responses;
      |u.results| == |s.results| + 1
      && |saved| == |ResponsesAt(s.responses, s.currentQuestion)| + 1
      && saved[..|saved| - 1] == ResponsesAt(s.responses, s.currentQuestion)
      && saved[|saved| - 1].text == s.userInput
  {
  }

  /** The component: its state hooks as fields, each handler replacing them as one update. */
  class Game {
    var currentQuestion: nat
    var userInput: string
    var responses: map<nat, seq<Response>>
    var timeLeft: int
    var gameStatus: Status
    var message: string
    var chartData: seq<ChartPoint>
    var isEvaluating: bool
    var results: seq<QuestionResult>

    /** The fields as one state value. */
    function Snapshot(): State
      reads this
    {
      State(currentQuestion, userInput, responses, timeLeft, gameStatus, message, chartData, isEvaluating, results)
    }

    /** Replaces every field by the given state. */
    method Set(s: State)
      modifies this
      ensures Snapshot() == s
    {
      currentQuestion, userInput, responses, timeLeft, gameStatus := s.currentQuestion, s.userInput, s.responses, s.timeLeft, s.gameStatus;
      message, chartData, isEvaluating, results := s.message, s.chartData, s.isEvaluating, s.results;
    }

    constructor()
      ensures Snapshot() == Initial
    {
      currentQuestion, userInput, responses, timeLeft, gameStatus := 0, "", map[], ResponseTimeLimit, Setup;
      message, chartData, isEvaluating, results := "", [], false, [];
    }

    /** The input box's `onChange`. */
    method SetInput(text: string)
      modifies this
      ensures Snapshot() == old(Snapshot()).(userInput := text)
    {
      userInput := text;
    }

    /** `validateApiKeys`, given whether both test calls succeeded. */
    method ValidateApiKeys(keysWork: bool)
      modifies this
      ensures Snapshot() == ValidateStep(old(Snapshot()), keysWork)
    {
      if keysWork {
        gameStatus := Ready;
        message := KeysValidMessage;
      } else {
        message := KeysInvalidMessage;
      }
    }

    /** One firing of the timer's interval. */
    method Tick()
      modifies this
      ensures Snapshot() == TickStep(old(Snapshot()))
    {
      if gameStatus == Playing && timeLeft > 0 {
        timeLeft := timeLeft - 1;
      }
    }

    /** `handleTimeUp`. */
    method TimeUp(reply: Result<string>, similarities: Result<seq<real>>, now: int)
      returns (scheduled: Option<map<nat, seq<Response>>>, download: Option<seq<QuestionResult>>)
      requires ValidState(Snapshot())
      modifies this
      ensures (Snapshot(), scheduled, download) == TimeUpStep(old(Snapshot()), reply, similarities, now)
    {
      if !IsBlank(userInput) {
        scheduled := Submit(reply, similarities, now);
        download := None;
      } else {
        scheduled := None;
        download := MoveToNextQuestion(responses);
      }
    }

    /** `startGame`. */
    method StartGame()
      modifies this
      ensures Snapshot() == StartStep(old(Snapshot()))
    {
      gameStatus := Playing;
      timeLeft := ResponseTimeLimit;
    }

    /** `handleSubmit`; returns the `responses` seen by the move it schedules, if any. */
    method Submit(reply: Result<string>, similarities: Result<seq<real>>, now: int)
      returns (scheduled: Option<map<nat, seq<Response>>>)
      modifies this
      ensures (Snapshot(), scheduled) == SubmitStep(old(Snapshot()), reply, similarities, now)
    {
      ghost var s := Snapshot();
      scheduled := None;
      if IsBlank(userInput) || isEvaluating {
        SubmitIgnored(s, reply, similarities, now);
        return;
      }
      var scores := Evaluate(ResponsesAt(responses, currentQuestion), reply, similarities);
      if scores.None? {
        message := ErrorMessage;
        isEvaluating := false;
        SubmitFailed(s, reply, similarities, now);
      } else {
        SubmitRecords(s, reply, similarities, now);
        isEvaluating := true;
        assert Snapshot() == s.(isEvaluating := true);
        scheduled := RecordAnswer(scores.value.0, scores.value.1, now);
      }
    }

    /** The scored branch of `handleSubmit`. */
    method RecordAnswer(coherence: int, novelty: real, now: int) returns (scheduled: Option<map<nat, seq<Response>>>)
      modifies this
      ensures (Snapshot(), scheduled) == RecordStep(old(Snapshot()), coherence, novelty, now)
    {
      var previous := ResponsesAt(responses, currentQuestion);
      var before := responses;
      responses := responses[currentQuestion := previous + [Response(userInput, coherence, novelty, now)]];
      chartData := chartData + [ChartPoint(|previous| + 1, coherence, novelty * 100.0)];
      isEvaluating := false;
      if ReachesThreshold(coherence, novelty) {
        message := ThresholdMessage;
        scheduled := Some(before);
      } else {
        userInput := "";
        timeLeft := ResponseTimeLimit;
        scheduled := None;
      }
    }

    /** `moveToNextQuestion` run by a closure that sees `seen` as `responses`; returns the downloaded results at the end. */
    method MoveToNextQuestion(seen: map<nat, seq<Response>>) returns (download: Option<seq<QuestionResult>>)
      requires ValidState(Snapshot())
      modifies this
      ensures (Snapshot(), download) == MoveStep(old(Snapshot()), seen)
    {
      var saved := QuestionResult(Questions[currentQuestion], ResponsesAt(seen, currentQuestion));
      if currentQuestion < |Questions| - 1 {
        results := results + [saved];
        currentQuestion := currentQuestion + 1;
        userInput := "";
        timeLeft := ResponseTimeLimit;
        chartData := [];
        message := "";
        download := None;
      } else {
        download := Some(results + [saved]);
        gameStatus := Completed;
      }
    }
  }
}
