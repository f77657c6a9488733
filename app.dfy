/** The quiz session: status, topic, difficulty, current question, error message, history of
    asked questions, running counters, and the "quiz is active" flag that drops asynchronous
    results arriving after an exit. A question fetch is two events: `FetchQuestion` issues the
    request (and returns it), `Resolve` delivers what the generator did. */
module Session {
  import opened Wrappers
  import opened Types
  import Card

  const FailureMessage := "Failed to generate a valid question. Please try again or choose a different topic."
  const HistoryWindow := 20
  const ZeroState := QuizState(0, 0, 0)

  /** The arguments handed to the question generator. */
  datatype Request = Request(topic: string, difficulty: string, recentHistory: seq<string>)

  /** `history.slice(-20)`: the most recent entries, at most twenty, in order. */
  function RecentHistory(history: seq<string>): (r: seq<string>)
    ensures |r| == if |history| < HistoryWindow then |history| else HistoryWindow
    ensures r == history[|history| - |r|..]
  {
    if |history| <= HistoryWindow then history else history[|history| - HistoryWindow..]
  }

  /** The window slides: one more question enters at the end, and once the window is full
      the oldest one leaves it. */
  lemma RecentHistorySlides(history: seq<string>, q: string)
    ensures RecentHistory(history + [q]) ==
      if |history| < HistoryWindow then RecentHistory(history) + [q] else RecentHistory(history)[1..] + [q]
  {
    var h := history + [q];
    if |history| >= HistoryWindow {
      assert h[|h| - HistoryWindow..] == history[|history| - HistoryWindow + 1..] + [q];
      assert RecentHistory(history)[1..] == history[|history| - HistoryWindow + 1..];
    }
  }

  /** The `handleResult` update of the counters. */
  function Scored(prev: QuizState, isCorrect: bool): (next: QuizState)
    ensures next.totalQuestions == prev.totalQuestions + 1
    ensures next.score == if isCorrect then prev.score + 1 else prev.score
    ensures next.streak == if isCorrect then prev.streak + 1 else 0
    ensures prev.score <= prev.totalQuestions ==> next.score <= next.totalQuestions
  {
    QuizState(prev.score + (if isCorrect then 1 else 0), prev.totalQuestions + 1, if isCorrect then prev.streak + 1 else 0)
  }

  /** The `handleSkip` update of the counters: counted as asked, score kept, streak broken. */
  function Skipped(prev: QuizState): (next: QuizState)
    ensures next.totalQuestions == prev.totalQuestions + 1
    ensures next.score == prev.score && next.streak == 0
    ensures prev.score <= prev.totalQuestions ==> next.score <= next.totalQuestions
  {
    prev.(totalQuestions := prev.totalQuestions + 1, streak := 0)
  }

  /** What happened to one question: answered (correctly or not) or skipped. */
  datatype Outcome = Answered(correct: bool) | SkippedQuestion

  /** The counters after a run of outcomes since the last start. */
  function Replay(outcomes: seq<Outcome>): (state: QuizState)
  {
    if outcomes == [] then ZeroState
    else
      var prev := Replay(outcomes[..|outcomes| - 1]);
      match outcomes[|outcomes| - 1]
      case Answered(c) => Scored(prev, c)
      case SkippedQuestion => Skipped(prev)
  }

  /** The number of correct answers in a run of outcomes. */
  function CorrectCount(outcomes: seq<Outcome>): (n: nat)
  {
    if outcomes == [] then 0
    else (if outcomes[0] == Answered(true) then 1 else 0) + CorrectCount(outcomes[1..])
  }

  lemma {:induction false} CorrectCountSnoc(outcomes: seq<Outcome>, o: Outcome)
    ensures CorrectCount(outcomes + [o]) == CorrectCount(outcomes) + (if o == Answered(true) then 1 else 0)
  {
    if outcomes == [] {
      assert [] + [o] == [o];
      assert [o][1..] == [];
    } else {
      assert (outcomes + [o])[1..] == outcomes[1..] + [o];
      CorrectCountSnoc(outcomes[1..], o);
    }
  }

  /** After N answers and skips, `totalQuestions` is N, `score` is the number of correct
      answers, and so `score <= totalQuestions`. */
  lemma {:induction false} ReplayCounts(outcomes: seq<Outcome>)
    ensures Replay(outcomes).totalQuestions == |outcomes|
    ensures Replay(outcomes).score == CorrectCount(outcomes)
    ensures Replay(outcomes).score <= Replay(outcomes).totalQuestions
  {
    if outcomes != [] {
      var init := outcomes[..|outcomes| - 1];
      var last := outcomes[|outcomes| - 1];
      ReplayCounts(init);
      CorrectCountSnoc(init, last);
      assert init + [last] == outcomes;
    }
  }

  /** The streak is the length of the run of correct answers that ends the outcomes. */
  lemma {:induction false} ReplayStreak(outcomes: seq<Outcome>)
    ensures var n := Replay(outcomes).streak;
      && n <= |outcomes|
      && (forall i :: |outcomes| - n <= i < |outcomes| ==> outcomes[i] == Answered(true))
      && (n < |outcomes| ==> outcomes[|outcomes| - n - 1] != Answered(true))
  {
    if outcomes != [] {
      var init := outcomes[..|outcomes| - 1];
      ReplayStreak(init);
      assert forall i :: 0 <= i < |init| ==> init[i] == outcomes[i];
    }
  }

  /** Every field of the session, as one value. */
  datatype SessionView = SessionView(
    status: GameStatus,
    topic: string,
    difficulty: string,
    currentQuestion: Option<QuizQuestion>,
    error: Option<string>,
    history: seq<string>,
    quizState: QuizState,
    isQuizActive: bool)

  class QuizSession {
    var status: GameStatus
    var topic: string
    var difficulty: string
    var currentQuestion: Option<QuizQuestion>
    var error: Option<string>
    var history: seq<string>
    var quizState: QuizState
    var isQuizActive: bool

    ghost function View(): SessionView
      reads this
    {
      SessionView(status, topic, difficulty, currentQuestion, error, history, quizState, isQuizActive)
    }

    /** The score never exceeds the number of questions asked, and a question is on screen
        whenever the status is playing. */
    ghost predicate Valid()
      reads this
    {
      quizState.score <= quizState.totalQuestions && (status == Playing ==> currentQuestion.Some?)
    }

    /** The initial state: idle, no topic, difficulty "Mixed", no question, zero counters,
        empty history, inactive. */
    constructor ()
      ensures Valid()
      ensures View() == SessionView(Idle, "", MixedDifficulty, None, None, [], ZeroState, false)
    {
      status := Idle;
      topic := "";
      difficulty := MixedDifficulty;
      currentQuestion := None;
      error := None;
      history := [];
      quizState := ZeroState;
      isQuizActive := false;
    }

    /** Issuing `fetchQuestion`: the status becomes loading and the error is cleared before
        the call; the generator is asked with the last twenty entries of the given history. */
    method FetchQuestion(selectedTopic: string, selectedDifficulty: string, currentHistory: seq<string>)
      returns (req: Request)
      requires Valid()
      modifies this
      ensures Valid()
      ensures View() == old(View()).(status := Loading, error := None)
      ensures req == Request(selectedTopic, selectedDifficulty, RecentHistory(currentHistory))
    {
      status := Loading;
      error := None;
      req := Request(selectedTopic, selectedDifficulty, RecentHistory(currentHistory));
    }

    /** The awaited generator call resolving. While the quiz is active, a question is stored,
        its text appended to the history and the status set to playing; a failure sets the
        fixed error message and the error status. While inactive, nothing changes. */
    method Resolve(outcome: Result<QuizQuestion, string>)
      requires Valid()
      modifies this
      ensures Valid()
      ensures !old(isQuizActive) ==> View() == old(View())
      ensures old(isQuizActive) && outcome.Success? ==>
        View() == old(View()).(currentQuestion := Some(outcome.value),
                               history := old(history) + [outcome.value.question],
                               status := Playing)
      ensures old(isQuizActive) && outcome.Failure? ==>
        View() == old(View()).(error := Some(FailureMessage), status := Error)
    {
      if !isQuizActive {
        return;
      }
      match outcome
      case Success(q) =>
        currentQuestion := Some(q);
        history := history + [q.question];
        status := Playing;
      case Failure(_) =>
        error := Some(FailureMessage);
        status := Error;
    }

    /** `handleStart`: mark the quiz active, record topic and difficulty, zero the counters,
        empty the history and fetch with an empty history. */
    method Start(selectedTopic: string, selectedDifficulty: string) returns (req: Request)
      requires Valid()
      modifies this
      ensures Valid()
      ensures View() == old(View()).(isQuizActive := true, topic := selectedTopic, difficulty := selectedDifficulty,
                                     quizState := ZeroState, history := [], status := Loading, error := None)
      ensures req == Request(selectedTopic, selectedDifficulty, [])
    {
      isQuizActive := true;
      topic := selectedTopic;
      difficulty := selectedDifficulty;
      quizState := ZeroState;
      history := [];
      req := FetchQuestion(selectedTopic, selectedDifficulty, []);
      assert RecentHistory([]) == [];
      assert View() == SessionView(Loading, selectedTopic, selectedDifficulty, old(currentQuestion), None, [], ZeroState, true);
    }

    /** `handleResult`: count the answer. Nothing here rejects a second call for one question. */
    method HandleResult(isCorrect: bool)
      requires Valid()
      modifies this
      ensures Valid()
      ensures View() == old(View()).(quizState := Scored(old(quizState), isCorrect))
    {
      quizState := Scored(quizState, isCorrect);
    }

    /** `handleNext`: fetch with the current topic, difficulty and history, if there is a topic. */
    method HandleNext() returns (req: Option<Request>)
      requires Valid()
      modifies this
      ensures Valid()
      ensures old(topic) == "" ==> req == None && View() == old(View())
      ensures old(topic) != "" ==>
        req == Some(Request(topic, difficulty, RecentHistory(history)))
        && View() == old(View()).(status := Loading, error := None)
    {
      req := None;
      if topic != "" {
        var r := FetchQuestion(topic, difficulty, history);
        req := Some(r);
      }
    }

    /** `handleSkip`: count the question as asked, break the streak, keep the score, and fetch
        like `handleNext` with the unchanged history. */
    method HandleSkip() returns (req: Option<Request>)
      requires Valid()
      modifies this
      ensures Valid()
      ensures old(topic) == "" ==> req == None && View() == old(View()).(quizState := Skipped(old(quizState)))
      ensures old(topic) != "" ==>
        req == Some(Request(topic, difficulty, RecentHistory(history)))
        && View() == old(View()).(quizState := Skipped(old(quizState)), status := Loading, error := None)
    {
      quizState := Skipped(quizState);
      req := None;
      if topic != "" {
        var r := FetchQuestion(topic, difficulty, history);
        req := Some(r);
      }
    }

    /** The "Try Again" button: fetch again with the same topic, difficulty and history. */
    method Retry() returns (req: Request)
      requires Valid()
      modifies this
      ensures Valid()
      ensures View() == old(View()).(status := Loading, error := None)
      ensures req == Request(topic, difficulty, RecentHistory(history))
    {
      req := FetchQuestion(topic, difficulty, history);
    }

    /** `handleExit`: back to idle with no topic, difficulty "Mixed", zero counters, empty
        history, no question, and inactive. The error message is left as it was. */
    method HandleExit()
      requires Valid()
      modifies this
      ensures Valid()
      ensures View() == SessionView(Idle, "", MixedDifficulty, None, old(error), [], ZeroState, false)
    {
      isQuizActive := false;
      status := Idle;
      topic := "";
      difficulty := MixedDifficulty;
      quizState := ZeroState;
      history := [];
      currentQuestion := None;
    }

    /** Clicking an option on the card: the card's guard decides whether `handleResult` runs,
        so a second click on the same question changes no counter. */
    method SelectOption(card: Card.QuizCard, idx: int)
      requires Valid() && card.Valid()
      modifies this, card
      ensures Valid() && card.Valid()
      ensures card.hasSubmitted && card.question == old(card.question) && card.showHint == old(card.showHint)
      ensures old(card.hasSubmitted) ==> card.selectedIdx == old(card.selectedIdx)
      ensures !old(card.hasSubmitted) ==> card.selectedIdx == Some(idx)
      ensures old(card.hasSubmitted) ==> View() == old(View())
      ensures !old(card.hasSubmitted) ==>
        View() == old(View()).(quizState := Scored(old(quizState), idx == old(card.question).correctAnswerIndex))
    {
      var reported := card.HandleSelect(idx);
      if reported.Some? {
        HandleResult(reported.value);
      }
    }
  }

  /** Start a topic and receive its first question. */
  method StartAndReceive(topic: string, level: string, q1: QuizQuestion) returns (s: QuizSession)
    ensures fresh(s) && s.Valid()
    ensures s.View() == SessionView(Playing, topic, level, Some(q1), None, [q1.question], ZeroState, true)
  {
    s := new QuizSession();
    var first := s.Start(topic, level);
    s.Resolve(Success(q1));
  }

  /** Answering the question on screen through a fresh card for it counts that answer. */
  method AnswerShown(s: QuizSession, idx: int)
    requires s.Valid() && s.currentQuestion.Some?
    modifies s
    ensures s.Valid()
    ensures s.View() == old(s.View()).(quizState := Scored(old(s.quizState), idx == old(s.currentQuestion).value.correctAnswerIndex))
  {
    var card := new Card.QuizCard(s.currentQuestion.value);
    s.SelectOption(card, idx);
  }

  /** Start a topic, receive Q1, answer it correctly, go on and receive Q2: one point, a streak
      of one, and the second request carries the first question as history. */
  method AnswerAndContinue(topic: string, level: string, q1: QuizQuestion, q2: QuizQuestion)
    returns (s: QuizSession, next: Option<Request>)
    requires topic != ""
    ensures s.status == Playing && s.currentQuestion == Some(q2)
    ensures s.quizState == QuizState(1, 1, 1)
    ensures next == Some(Request(topic, level, [q1.question]))
    ensures s.history == [q1.question, q2.question]
  {
    s := StartAndReceive(topic, level, q1);
    AnswerShown(s, q1.correctAnswerIndex);
    ghost var answered := SessionView(Playing, topic, level, Some(q1), None, [q1.question], QuizState(1, 1, 1), true);
    assert s.View() == answered;
    next := s.HandleNext();
    assert RecentHistory([q1.question]) == [q1.question];
    assert s.View() == answered.(status := Loading);
    s.Resolve(Success(q2));
    assert [q1.question] + [q2.question] == [q1.question, q2.question];
  }

  /** The same flow for the topic "Roman Empire" at difficulty "Easy". */
  method RomanEmpireScenario(q1: QuizQuestion, q2: QuizQuestion) returns (s: QuizSession, next: Option<Request>)
    ensures s.status == Playing && s.currentQuestion == Some(q2)
    ensures s.quizState == QuizState(1, 1, 1)
    ensures next == Some(Request("Roman Empire", "Easy", [q1.question]))
    ensures s.history == [q1.question, q2.question]
  {
    s, next := AnswerAndContinue("Roman Empire", "Easy", q1, q2);
  }

  /** Two clicks on one card count one answer, that of the first click. */
  method ClickTwice(topic: string, level: string, q: QuizQuestion, first: int, second: int) returns (s: QuizSession)
    ensures s.quizState == Scored(ZeroState, first == q.correctAnswerIndex)
    ensures s.currentQuestion == Some(q) && s.history == [q.question]
  {
    s := StartAndReceive(topic, level, q);
    var card := new Card.QuizCard(q);
    s.SelectOption(card, first);
    s.SelectOption(card, second);
  }

  /** A failed first fetch, then a successful retry: playing, nothing counted. */
  method RetryScenario(q: QuizQuestion) returns (s: QuizSession)
    ensures s.status == Playing && s.currentQuestion == Some(q)
    ensures s.quizState.totalQuestions == 0 && s.history == [q.question]
  {
    s := new QuizSession();
    var first := s.Start("X", "Mixed");
    s.Resolve(Failure("transport"));
    assert s.status == Error && s.error == Some(FailureMessage);
    var again := s.Retry();
    s.Resolve(Success(q));
  }

  /** A fetch issued before an exit that resolves after it changes nothing. */
  method ExitScenario(q: QuizQuestion) returns (s: QuizSession)
    ensures s.status == Idle && s.currentQuestion == None && s.history == []
    ensures s.quizState == ZeroState
  {
    s := new QuizSession();
    var first := s.Start("A", "Hard");
    s.HandleExit();
    s.Resolve(Success(q));
  }

  /** The active flag is one boolean: a fetch issued before an exit that resolves after a new
      start is applied to the new session. */
  method RestartScenario(stale: QuizQuestion) returns (s: QuizSession)
    ensures s.topic == "B" && s.status == Playing
    ensures s.currentQuestion == Some(stale) && s.history == [stale.question]
  {
    s := new QuizSession();
    var first := s.Start("A", "Easy");
    s.HandleExit();
    var second := s.Start("B", "Hard");
    s.Resolve(Success(stale));
  }
}
