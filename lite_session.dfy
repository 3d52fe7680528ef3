/** `src/App.tsx`: the smaller single-file variant of the app, without a
    streak, difficulty or study guide. Its state hooks are the fields of
    `LiteSession` and each handler is a method. The 600 ms timeout that
    `handleAnswer` schedules is kept as a separate step (`Advance`), because
    the running percentage is shown in between; `pending` says that the
    timeout is scheduled. The service functions this file imports are not
    defined by `src/services/geminiService.ts`, so their outcomes are
    parameters. */
module LiteApp {
  import opened Common
  import opened Seqs
  import opened QuizTypes
  import opened Scoring
  import QuizSetup

  datatype View = Landing | Setup | Game | Results

  const FAILED_ALERT: string := "Something went wrong. Please try again."

  /** Every state hook of the variant, plus the scheduled advance. */
  datatype LiteState = LiteState(
    view: View,
    topic: string,
    file: Option<FileRef>,
    selectedTypes: seq<QuestionType>,
    questions: seq<Question>,
    currentIndex: nat,
    userAnswers: seq<AnswerRecord>,
    loading: bool,
    aiFeedback: string,
    pending: bool)

  const INITIAL: LiteState :=
    LiteState(Landing, "", None, [MCQ], [], 0, [], false, "", false)

  /** While an advance is scheduled the current question already has its
      answer; otherwise, outside the results, the answers are those of the
      questions before the current one (an empty generated list leaves the
      index at 0); on the results every question has its answer. */
  ghost predicate Inv(s: LiteState) {
    (s.pending ==> s.view == Game && s.currentIndex < |s.questions| && |s.userAnswers| == s.currentIndex + 1) &&
    (!s.pending && s.view != Results ==>
       |s.userAnswers| == s.currentIndex && (s.currentIndex < |s.questions| || (s.questions == [] && s.currentIndex == 0))) &&
    (s.view == Results ==> !s.pending && 0 < |s.questions| && |s.userAnswers| == |s.questions| && s.currentIndex == |s.questions| - 1)
  }

  lemma InitialIsValid()
    ensures Inv(INITIAL)
  {
  }

  /** The synchronous part of `handleAnswer`: the record is appended and the
      advance is scheduled. */
  function AnswerStep(s: LiteState, rec: AnswerRecord): LiteState {
    s.(userAnswers := s.userAnswers + [rec], pending := true)
  }

  /** The scheduled advance: the next question, or the results. */
  function AdvanceStep(s: LiteState): LiteState {
    if s.currentIndex + 1 < |s.questions| then s.(currentIndex := s.currentIndex + 1, pending := false)
    else s.(view := Results, pending := false)
  }

  /** An answer to an unanswered question on the game screen appends exactly
      one record, at the current position, and keeps the invariant. */
  lemma AnswerStepKeepsInv(s: LiteState, rec: AnswerRecord)
    requires Inv(s) && s.view == Game && 0 < |s.questions| && !s.pending
    ensures var r := AnswerStep(s, rec);
            Inv(r) && r.pending && |r.userAnswers| == |s.userAnswers| + 1 &&
            r.userAnswers[s.currentIndex] == rec && r.userAnswers[..s.currentIndex] == s.userAnswers
  {
  }

  /** The advance keeps the invariant: afterwards the answers again match the
      index, and the results are reached exactly from the last question. */
  lemma AdvanceStepKeepsInv(s: LiteState)
    requires Inv(s) && s.pending
    ensures var r := AdvanceStep(s);
            Inv(r) && !r.pending && r.userAnswers == s.userAnswers &&
            (r.view == Results <==> s.currentIndex == |s.questions| - 1) &&
            (r.view == Game ==> r.currentIndex == s.currentIndex + 1 && |r.userAnswers| == r.currentIndex)
  {
  }

  /** What `generateCriticism` is called with when the quiz finishes. */
  datatype CriticismRequest = CriticismRequest(score: int, mistakes: seq<CriticismItem>)

  /** The finishing branch of the timeout: the rounded percentage over the
      number of questions and, in question order, the questions whose
      answer at the same position is incorrect. */
  function FinishRequest(questions: seq<Question>, finalAnswers: seq<AnswerRecord>): (r: CriticismRequest)
    requires |questions| > 0
    ensures r.score == Percent(CorrectCount(finalAnswers), |questions|)
    ensures var idx := MissedIndices(finalAnswers, |questions|);
            |r.mistakes| == |idx| &&
            forall k :: 0 <= k < |idx| ==>
              r.mistakes[k] == CriticismItem(questions[idx[k]].text, finalAnswers[idx[k]].answer, questions[idx[k]].answer)
  {
    var ms := Mistakes(questions, finalAnswers);
    MistakesAreMissedQuestions(questions, finalAnswers);
    CriticismRequest(Percent(CorrectCount(finalAnswers), |questions|), ToCriticisms(ms))
  }

  /** The score sent for criticism lies in 0..100 when every question has its
      answer, and the mistakes are as many as the incorrect answers. */
  lemma FinishRequestFacts(questions: seq<Question>, finalAnswers: seq<AnswerRecord>)
    requires 0 < |questions| && |finalAnswers| == |questions|
    ensures var r := FinishRequest(questions, finalAnswers);
            0 <= r.score <= 100 && |r.mistakes| == |questions| - CorrectCount(finalAnswers)
  {
    PercentBounds(CorrectCount(finalAnswers), |questions|);
    MistakeCountIsIncorrectCount(questions, finalAnswers);
  }

  /** The running percentage as the game header computes it: correct answers
      over `currentIndex || 1`. */
  function RunningPercentAsWritten(answers: seq<AnswerRecord>, currentIndex: nat): int {
    Percent(CorrectCount(answers), if currentIndex == 0 then 1 else currentIndex)
  }

  /** Between an answer and its advance the header shows more than 100 %:
      after correctly answering the first two questions it shows 200 %. */
  lemma RunningPercentOverflows(q0: Question, q1: Question, a0: string, a1: string)
    requires IsCorrectAnswer(a0, q0.answer) && IsCorrectAnswer(a1, q1.answer)
    ensures var answers := [Judge(q0, a0), Judge(q1, a1)];
            Inv(LiteState(Game, "", None, [MCQ], [q0, q1], 1, answers, false, "", true)) &&
            RunningPercentAsWritten(answers, 1) == 200
  {
    var answers := [Judge(q0, a0), Judge(q1, a1)];
    CountExtremes(answers, RecordCorrect);
  }

  /** The same header for any pending advance past the first question with
      only correct answers, in quizzes of up to 200 questions: always above
      100 %. */
  lemma RunningPercentAsWrittenExceedsFull(s: LiteState)
    requires Inv(s) && s.pending && 0 < s.currentIndex <= 200
    requires CorrectCount(s.userAnswers) == |s.userAnswers|
    ensures RunningPercentAsWritten(s.userAnswers, s.currentIndex) > 100
  {
    var n := s.currentIndex;
    var r := Percent(n + 1, n);
    PercentBracket(n + 1, n);
    if r <= 100 {
      MulStrict(2 * n, r, 101);
      assert false;
    }
  }

  /** The running percentage over the answers given so far, 0 before the
      first one. */
  function RunningPercent(answers: seq<AnswerRecord>): (p: int)
    ensures 0 <= p <= 100
    ensures |answers| > 0 ==> p == Percent(CorrectCount(answers), |answers|)
    ensures |answers| == 0 ==> p == 0
  {
    if |answers| == 0 then 0
    else
      PercentBounds(CorrectCount(answers), |answers|);
      Percent(CorrectCount(answers), |answers|)
  }

  /** While no advance is pending, the header as written and the corrected
      running percentage agree. */
  lemma RunningPercentAgreesAtRest(s: LiteState)
    requires Inv(s) && !s.pending && s.view == Game
    ensures s.currentIndex > 0 ==> RunningPercentAsWritten(s.userAnswers, s.currentIndex) == RunningPercent(s.userAnswers)
    ensures s.currentIndex == 0 ==> RunningPercentAsWritten(s.userAnswers, s.currentIndex) == RunningPercent(s.userAnswers) == 0
  {
    if s.currentIndex == 0 {
      assert CorrectCount(s.userAnswers) == 0;
      PercentExtremes(1);
    }
  }

  class LiteSession {
    var view: View
    var topic: string
    var file: Option<FileRef>
    var selectedTypes: seq<QuestionType>
    var questions: seq<Question>
    var currentIndex: nat
    var userAnswers: seq<AnswerRecord>
    var loading: bool
    var aiFeedback: string
    var pending: bool

    function State(): LiteState
      reads this
    {
      LiteState(view, topic, file, selectedTypes, questions, currentIndex, userAnswers, loading, aiFeedback, pending)
    }

    ghost predicate Valid()
      reads this
    {
      Inv(State())
    }

    constructor ()
      ensures State() == INITIAL && Valid()
    {
      view, topic, file, selectedTypes, questions := Landing, "", None, [MCQ], [];
      currentIndex, userAnswers, loading, aiFeedback, pending := 0, [], false, "", false;
    }

    /** The running percentage the game header shows, corrected to count the
        answers given. */
    function RunningScore(): (p: int)
      reads this
      ensures 0 <= p <= 100
    {
      RunningPercent(userAnswers)
    }

    /** `handleStartSetup`. */
    method StartSetup()
      requires Valid() && view == Landing
      modifies this
      ensures Valid() && State() == old(State()).(view := Setup)
    {
      view := Setup;
    }

    /** The close button of the setup screen, and the footer's first button
        (shown in setup and game, disabled in neither). */
    method GoToLanding()
      requires Valid() && (view == Setup || view == Game) && !pending
      modifies this
      ensures Valid() && State() == old(State()).(view := Landing)
    {
      view := Landing;
    }

    /** The footer's second button. */
    method GoToSetup()
      requires Valid() && (view == Setup || view == Game) && !pending
      modifies this
      ensures Valid() && State() == old(State()).(view := Setup)
    {
      view := Setup;
    }

    /** The "Topic" source button clears both the topic and the file. */
    method ChooseTopicSource()
      requires Valid() && view == Setup
      modifies this
      ensures Valid() && State() == old(State()).(topic := "", file := None)
    {
      topic, file := "", None;
    }

    /** The "Upload" source button and "Remove" both drop the file. */
    method ClearFile()
      requires Valid() && view == Setup
      modifies this
      ensures Valid() && State() == old(State()).(file := None)
    {
      file := None;
    }

    /** The topic text area, shown while no file is chosen. */
    method SetTopic(t: string)
      requires Valid() && view == Setup && file.None?
      modifies this
      ensures Valid() && State() == old(State()).(topic := t)
    {
      topic := t;
    }

    /** The import control is offered only when there is neither a file nor
        a topic. */
    method ImportFile(f: FileRef)
      requires Valid() && view == Setup && file.None? && topic == ""
      modifies this
      ensures Valid() && State() == old(State()).(file := Some(f))
    {
      file := Some(f);
    }

    /** A question-style button. */
    method ToggleType(t: QuestionType)
      requires Valid() && view == Setup
      modifies this
      ensures Valid() && State() == old(State()).(selectedTypes := QuizSetup.Toggle(old(selectedTypes), t))
    {
      selectedTypes := QuizSetup.Toggle(selectedTypes, t);
    }

    /** `handleGenerate`, enabled when there is a topic or a file. A chosen
        file's text replaces the topic as content; `extracted` and
        `generated` are what the extraction and the generation produce. Any
        failure ends in the alert with the state kept; otherwise the game
        starts on the generated list, even an empty one. */
    method Generate(extracted: Result<string>, generated: Result<seq<Question>>)
      returns (request: Option<(string, string, seq<QuestionType>)>, alert: Option<string>)
      requires Valid() && view == Setup && !loading && (topic != "" || file.Some?)
      modifies this
      ensures Valid() && !loading
      ensures file.Some? && extracted.Err? ==>
                request.None? && alert == Some(FAILED_ALERT) && State() == old(State())
      ensures !(file.Some? && extracted.Err?) ==>
                request == Some((QuizSetup.GenerationTitle(topic, file),
                                 if file.Some? then extracted.value else topic, selectedTypes))
      ensures !(file.Some? && extracted.Err?) && generated.Ok? ==>
                alert.None? &&
                State() == old(State()).(questions := generated.value, currentIndex := 0, userAnswers := [], view := Game)
      ensures !(file.Some? && extracted.Err?) && generated.Err? ==>
                alert == Some(FAILED_ALERT) && State() == old(State())
    {
      loading := true;
      request, alert := None, None;
      var content := topic;
      if file.Some? {
        if extracted.Err? {
          alert := Some(FAILED_ALERT);
          loading := false;
          return;
        }
        content := extracted.value;
      }
      request := Some((QuizSetup.GenerationTitle(topic, file), content, selectedTypes));
      if generated.Err? {
        alert := Some(FAILED_ALERT);
        loading := false;
        return;
      }
      questions, currentIndex, userAnswers, view := generated.value, 0, [], Game;
      loading := false;
    }

    /** `handleAnswer`, reachable while the current question has no answer:
        the judged record is appended and the advance is scheduled. */
    method Answer(answer: string)
      requires Valid() && view == Game && 0 < |questions| && |userAnswers| <= currentIndex
      modifies this
      ensures Valid()
      ensures State() == AnswerStep(old(State()), Judge(old(questions[currentIndex]), answer))
    {
      var rec := Judge(questions[currentIndex], answer);
      AnswerStepKeepsInv(State(), rec);
      userAnswers, pending := userAnswers + [rec], true;
    }

    /** The timeout `handleAnswer` scheduled: the next question, or on the
        last one the results and the criticism request over all the answers. */
    method Advance() returns (request: Option<CriticismRequest>)
      requires Valid() && pending
      modifies this
      ensures Valid()
      ensures State() == AdvanceStep(old(State()))
      ensures request == if view == Results then Some(FinishRequest(questions, userAnswers)) else None
    {
      AdvanceStepKeepsInv(State());
      if currentIndex < |questions| - 1 {
        currentIndex, pending := currentIndex + 1, false;
        request := None;
      } else {
        view, pending := Results, false;
        request := Some(FinishRequest(questions, userAnswers));
      }
    }

    /** The criticism text arriving (`.then(setAiFeedback)`). */
    method ReceiveFeedback(text: string)
      requires Valid()
      modifies this
      ensures Valid() && State() == old(State()).(aiFeedback := text)
    {
      aiFeedback := text;
    }

    /** `resetGame`, the results screen's button: every hook back to its
        initial value, the question styles included. */
    method ResetGame()
      requires Valid() && view == Results
      modifies this
      ensures Valid() && State() == INITIAL
    {
      view, topic, file, questions, currentIndex := Landing, "", None, [], 0;
      userAnswers, aiFeedback, selectedTypes, loading := [], "", [MCQ], false;
    }
  }
}
