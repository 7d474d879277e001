/**
 * The quiz page's progression logic (src/pages/Quiz.tsx): the per-question
 * page state, what the "Next Question" / "Submit Quiz" button does, the attempt
 * a submission records, and which screen the page shows.
 *
 * The questions are the rows fetched for the quiz, ordered by `order_index`;
 * they do not change while the page is shown.
 */
module Quiz {
  import opened Optional

  /** A row of the `questions` table. */
  datatype Question = Question(text: string, options: seq<string>, correctAnswer: int, points: int)

  /** The page state the quiz logic reads and writes: `currentQuestion`,
      `score`, `selectedAnswer` and `showResult`. */
  datatype Session = Session(current: nat, score: int, selected: Option<int>, showResult: bool)

  /** The `quiz_attempts` row a submission inserts. */
  datatype Attempt = Attempt(score: int, totalPoints: int)

  /** What one press of the button does. */
  datatype Outcome =
    | Rejected(state: Session)                      // nothing selected: a toast, the state as it was
    | Advanced(state: Session)                      // moved on to the next question
    | Submitting(state: Session, attempt: Attempt)  // last question: the submission is under way

  datatype Label = NextQuestion | SubmitQuiz

  /** The screen the page renders once loading is over. */
  datatype Screen = Result(score: int, totalPoints: int) | NotFound | Asking(index: nat, button: Label)

  /** The state the page starts in. */
  const Initial := Session(0, 0, None, false)

  /** Sum of the points of all questions, accumulated left to right. */
  function TotalPoints(qs: seq<Question>): int
  {
    if |qs| == 0 then 0 else TotalPoints(qs[..|qs| - 1]) + qs[|qs| - 1].points
  }

  /** The reference score of an answer sheet: the points of exactly those
      questions whose chosen option is the correct one. */
  function CorrectPoints(qs: seq<Question>, answers: seq<int>): int
    requires |answers| == |qs|
  {
    if |qs| == 0 then 0
    else
      var k := |qs| - 1;
      CorrectPoints(qs[..k], answers[..k]) + (if answers[k] == qs[k].correctAnswer then qs[k].points else 0)
  }

  /** Whether a choice answers a question correctly (strict equality of indices). */
  predicate IsCorrect(q: Question, choice: int)
  {
    choice == q.correctAnswer
  }

  /** The states the page can be in for a fixed list of questions: with no
      questions nothing ever moves; otherwise the index names a question. */
  predicate Consistent(qs: seq<Question>, s: Session)
  {
    if |qs| == 0 then s == Initial else s.current < |qs|
  }

  /** The state has a current question and no result is shown. */
  predicate OnQuestion(qs: seq<Question>, s: Session)
  {
    !s.showResult && s.current < |qs|
  }

  /** Whether the button's next valid press submits rather than moves on. */
  predicate OnLastQuestion(qs: seq<Question>, s: Session)
  {
    s.current + 1 == |qs|
  }

  /** Picking one of the rendered options of the current question. */
  function Choose(qs: seq<Question>, s: Session, option: int): (r: Session)
    requires OnQuestion(qs, s)
    requires 0 <= option < |qs[s.current].options|
    ensures r.selected == Some(option)
    ensures r.current == s.current && r.score == s.score && r.showResult == s.showResult
  {
    s.(selected := Some(option))
  }

  /** Pressing the button on the question screen. The score of the last
      question is added once, to the score as it was before the press. */
  function Next(qs: seq<Question>, s: Session): (o: Outcome)
    requires Consistent(qs, s) && OnQuestion(qs, s)
    ensures o.Rejected? <==> s.selected.None?
    ensures o.Rejected? ==> o.state == s
    ensures o.Advanced? <==> s.selected.Some? && !OnLastQuestion(qs, s)
    ensures o.Submitting? <==> s.selected.Some? && OnLastQuestion(qs, s)
    ensures Consistent(qs, o.state) && OnQuestion(qs, o.state)
    ensures o.Advanced? ==> o.state.current == s.current + 1 && o.state.selected.None?
    ensures o.Submitting? ==> o.state.current == s.current && o.state.selected == s.selected
    ensures !o.Rejected? && IsCorrect(qs[s.current], s.selected.value) ==>
              o.state.score == s.score + qs[s.current].points
    ensures !o.Rejected? && !IsCorrect(qs[s.current], s.selected.value) ==>
              o.state.score == s.score
    ensures o.Submitting? ==> o.attempt.score == o.state.score && o.attempt.totalPoints == TotalPoints(qs)
  {
    match s.selected
    case None => Rejected(s)
    case Some(choice) =>
      var q := qs[s.current];
      var correct := IsCorrect(q, choice);
      var scored := if correct then s.score + q.points else s.score;
      if s.current < |qs| - 1 then
        Advanced(Session(s.current + 1, scored, None, false))
      else
        var finalScore := if correct then s.score + q.points else s.score;
        Submitting(s.(score := scored), Attempt(finalScore, TotalPoints(qs)))
  }

  /** The submission came back: the result screen shows the attempt's score. */
  function Finish(pending: Session, a: Attempt): (r: Session)
    ensures r.showResult && r.score == a.score
    ensures r.current == pending.current
  {
    pending.(score := a.score, showResult := true)
  }

  /** The screen for a state, given whether the quiz row was found. */
  function Render(quizFound: bool, qs: seq<Question>, s: Session): (v: Screen)
    requires Consistent(qs, s)
    ensures v.Result? <==> s.showResult
    ensures v.Result? ==> v.score == s.score && v.totalPoints == TotalPoints(qs)
    ensures |qs| == 0 ==> v == NotFound
    ensures v.Asking? <==> quizFound && OnQuestion(qs, s)
    ensures v.Asking? ==> v.index == s.current && (v.button == SubmitQuiz <==> OnLastQuestion(qs, s))
  {
    if s.showResult then
      Result(s.score, TotalPoints(qs))
    else if !quizFound || |qs| == 0 then
      NotFound
    else
      Asking(s.current, if s.current < |qs| - 1 then NextQuestion else SubmitQuiz)
  }

  /** An answer sheet: one rendered option index per question, in order. */
  predicate AnswerSheet(qs: seq<Question>, answers: seq<int>)
  {
    |answers| == |qs| && forall k :: 0 <= k < |qs| ==> 0 <= answers[k] < |qs[k].options|
  }

  /** Playing the rest of the quiz from `s`: choose the sheet's option for the
      current question, press the button, and repeat until it submits. */
  function PlayFrom(qs: seq<Question>, answers: seq<int>, s: Session): (a: Attempt)
    requires AnswerSheet(qs, answers) && Consistent(qs, s) && OnQuestion(qs, s)
    requires s.score == CorrectPoints(qs[..s.current], answers[..s.current])
    ensures a.score == CorrectPoints(qs, answers)
    ensures a.totalPoints == TotalPoints(qs)
    decreases |qs| - s.current
  {
    var k := s.current;
    var o := Next(qs, Choose(qs, s, answers[k]));
    assert qs[..k + 1][..k] == qs[..k] && answers[..k + 1][..k] == answers[..k];
    if o.Advanced? then
      PlayFrom(qs, answers, o.state)
    else
      assert qs[..k + 1] == qs && answers[..k + 1] == answers;
      o.attempt
  }

  /** A full run of a quiz with at least one question, from the initial state. */
  function Play(qs: seq<Question>, answers: seq<int>): (a: Attempt)
    requires |qs| > 0 && AnswerSheet(qs, answers)
    ensures a.score == CorrectPoints(qs, answers)
    ensures a.totalPoints == TotalPoints(qs)
  {
    PlayFrom(qs, answers, Initial)
  }

  predicate NonNegativePoints(qs: seq<Question>)
  {
    forall k :: 0 <= k < |qs| ==> qs[k].points >= 0
  }

  predicate PositivePoints(qs: seq<Question>)
  {
    forall k :: 0 <= k < |qs| ==> qs[k].points > 0
  }

  predicate AllCorrect(qs: seq<Question>, answers: seq<int>)
    requires |answers| == |qs|
  {
    forall k :: 0 <= k < |qs| ==> IsCorrect(qs[k], answers[k])
  }

  /** With no negative point values, a score never exceeds the total possible. */
  lemma {:induction false} ScoreAtMostTotal(qs: seq<Question>, answers: seq<int>)
    requires |answers| == |qs| && NonNegativePoints(qs)
    ensures 0 <= CorrectPoints(qs, answers) <= TotalPoints(qs)
  {
    if |qs| > 0 {
      var k := |qs| - 1;
      ScoreAtMostTotal(qs[..k], answers[..k]);
    }
  }

  /** With positive point values, the score reaches the total exactly when
      every answer is correct. */
  lemma {:induction false} FullScoreIffAllCorrect(qs: seq<Question>, answers: seq<int>)
    requires |answers| == |qs| && PositivePoints(qs)
    ensures CorrectPoints(qs, answers) == TotalPoints(qs) <==> AllCorrect(qs, answers)
  {
    if |qs| > 0 {
      var k := |qs| - 1;
      FullScoreIffAllCorrect(qs[..k], answers[..k]);
      ScoreAtMostTotal(qs[..k], answers[..k]);
      assert AllCorrect(qs, answers) <==> AllCorrect(qs[..k], answers[..k]) && IsCorrect(qs[k], answers[k]);
    }
  }

  /** The total of a non-empty quiz with positive point values is positive. */
  lemma {:induction false} PositiveTotal(qs: seq<Question>)
    requires |qs| > 0 && PositivePoints(qs)
    ensures TotalPoints(qs) > 0
  {
    var k := |qs| - 1;
    if k > 0 {
      PositiveTotal(qs[..k]);
    }
  }

  /** The result screen is only ever reached with questions, so with positive
      point values its percentage never divides by zero. */
  lemma ResultTotalPositive(quizFound: bool, qs: seq<Question>, s: Session)
    requires Consistent(qs, s) && PositivePoints(qs)
    requires Render(quizFound, qs, s).Result?
    ensures |qs| > 0
    ensures Render(quizFound, qs, s).totalPoints > 0
  {
    PositiveTotal(qs);
  }

  /** A quiz with no questions shows "Quiz not found" and never offers the
      button, so it can never be submitted. */
  lemma NoQuestionsNeverSubmits(quizFound: bool, qs: seq<Question>, s: Session)
    requires |qs| == 0 && Consistent(qs, s)
    ensures Render(quizFound, qs, s) == NotFound
    ensures !OnQuestion(qs, s)
  {
  }

  /** The button reads "Submit Quiz" exactly when a valid press submits. */
  lemma SubmitLabelIffSubmits(qs: seq<Question>, s: Session)
    requires Consistent(qs, s) && Render(true, qs, s).Asking? && s.selected.Some?
    ensures Render(true, qs, s).button == SubmitQuiz <==> Next(qs, s).Submitting?
    ensures Render(true, qs, s).button == NextQuestion <==> Next(qs, s).Advanced?
  {
  }

  /** While a submission is under way the button is still there; pressing it
      again submits a second attempt in which a correct last answer has been
      counted twice. Nothing in the page prevents this. */
  lemma SecondPressCountsLastAgain(qs: seq<Question>, s: Session)
    requires Consistent(qs, s) && OnQuestion(qs, s) && OnLastQuestion(qs, s)
    requires s.selected == Some(qs[s.current].correctAnswer)
    ensures Next(qs, s).Submitting?
    ensures Next(qs, Next(qs, s).state).Submitting?
    ensures Next(qs, Next(qs, s).state).attempt.score == s.score + 2 * qs[s.current].points
  {
  }

  /** Once the submission comes back, the result screen shows the submitted
      attempt: its score over the quiz's total. */
  lemma ResultShowsSubmittedAttempt(qs: seq<Question>, s: Session)
    requires Consistent(qs, s) && OnQuestion(qs, s) && Next(qs, s).Submitting?
    ensures var o := Next(qs, s);
      && Consistent(qs, Finish(o.state, o.attempt))
      && Render(true, qs, Finish(o.state, o.attempt)) == Result(o.attempt.score, o.attempt.totalPoints)
  {
  }

  /** Two questions worth 10 and 20, the first answered correctly and the
      second not: the attempt is 10 out of 30. */
  lemma TwoQuestionRun()
    ensures var qs := [Question("q1", ["a", "b"], 0, 10), Question("q2", ["a", "b"], 1, 20)];
      Play(qs, [0, 0]) == Attempt(10, 30)
  {
    var qs := [Question("q1", ["a", "b"], 0, 10), Question("q2", ["a", "b"], 1, 20)];
    var answers := [0, 0];
    assert qs[..1] == [qs[0]] && answers[..1] == [0];
    assert qs[..1][..0] == [] && answers[..1][..0] == [];
    assert CorrectPoints(qs[..1], answers[..1]) == 10;
    assert TotalPoints(qs[..1]) == 10;
  }
}
