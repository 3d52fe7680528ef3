/** `App.tsx`: the single-file quiz app with a streak counter and a study
    guide. Its React state hooks are the fields of `Session`; each handler is
    a method. The 600 ms delay between recording an answer and moving on is
    collapsed into one step, and the awaited service calls are parameters
    (the PDF's pages, the model's reply) or later deliveries
    (`ReceiveFeedback`, `ReceiveStudyGuide`). */
module QuizApp {
  import opened Common
  import opened Seqs
  import opened Text
  import opened QuizTypes
  import opened Scoring
  import opened PdfText
  import opened GeminiService
  import QuizSetup

  datatype View = Landing | Setup | Game | Results

  const BUSY_ALERT: string := "AI Service is currently busy. Please try again in a moment."
  const GUIDE_TOPIC_FALLBACK: string := "General Knowledge"

  /** Every state hook of the app. */
  datatype SessionState = SessionState(
    view: View,
    topic: string,
    file: Option<FileRef>,
    selectedTypes: seq<QuestionType>,
    difficulty: string,
    qCount: int,
    questions: seq<Question>,
    currentIndex: nat,
    userAnswers: seq<AnswerRecord>,
    streak: nat,
    aiFeedback: string,
    studyGuide: string,
    loadingGuide: bool)

  /** The state the app starts in. */
  const INITIAL: SessionState :=
    SessionState(Landing, "", None, [MCQ], "Medium", 5, [], 0, [], 0, "", "", false)

  /** What the app keeps true between handlers: the streak is the run of
      correct answers at the end of the answer list; outside a quiz there is
      no quiz data; during one, the answers are those of the questions before
      the current one; on the results, every question has its answer. */
  ghost predicate Inv(s: SessionState) {
    s.streak == TrailingCorrect(s.userAnswers) &&
    (s.view == Landing || s.view == Setup ==> s.questions == [] && s.currentIndex == 0 && s.userAnswers == []) &&
    (s.view == Game ==> s.currentIndex < |s.questions| && |s.userAnswers| == s.currentIndex) &&
    (s.view == Results ==> 0 < |s.questions| && |s.userAnswers| == |s.questions| && s.currentIndex == |s.questions| - 1)
  }

  lemma InitialIsValid()
    ensures Inv(INITIAL)
  {
  }

  /** `resetGame`: the session data back to the landing defaults. It does not
      touch the chosen types, difficulty, question count or the study-guide
      loading flag. */
  function ResetState(s: SessionState): (r: SessionState)
    ensures Inv(r)
    ensures r == INITIAL.(selectedTypes := s.selectedTypes, difficulty := s.difficulty,
                          qCount := s.qCount, loadingGuide := s.loadingGuide)
  {
    s.(view := Landing, topic := "", file := None, questions := [], currentIndex := 0,
       userAnswers := [], aiFeedback := "", studyGuide := "", streak := 0)
  }

  /** Resetting a session whose settings are the defaults gives the initial
      state, and a second reset changes nothing. */
  lemma ResetRestoresInitial(s: SessionState)
    requires s.selectedTypes == [MCQ] && s.difficulty == "Medium" && s.qCount == 5 && !s.loadingGuide
    ensures ResetState(s) == INITIAL
    ensures ResetState(ResetState(s)) == ResetState(s)
  {
  }

  /** What `finishQuiz` derives from the final answers. */
  datatype FinishReport = FinishReport(
    score: int,
    confetti: bool,
    mistakes: seq<Mistake>,
    criticism: seq<CriticismItem>,
    guideTopic: string)

  /** `finishQuiz`: the rounded percentage over the number of questions, the
      confetti for a score above 70, the mistakes in question order, the same
      mistakes in the shape the feedback service takes, and the topic for the
      study guide. */
  function FinishSummary(questions: seq<Question>, finalAnswers: seq<AnswerRecord>, topic: string): (r: FinishReport)
    requires |questions| > 0
    ensures r.score == Percent(CorrectCount(finalAnswers), |questions|)
    ensures r.confetti <==> r.score > 70
    ensures r.mistakes == Mistakes(questions, finalAnswers)
    ensures |r.criticism| == |r.mistakes|
    ensures forall k :: 0 <= k < |r.mistakes| ==> r.criticism[k] == CriticismItem(r.mistakes[k].questionText, r.mistakes[k].selectedOption, r.mistakes[k].correctAnswer)
    ensures r.guideTopic != "" && (topic != "" ==> r.guideTopic == topic)
    ensures topic == "" ==> r.guideTopic == GUIDE_TOPIC_FALLBACK
  {
    var score := Percent(CorrectCount(finalAnswers), |questions|);
    var ms := Mistakes(questions, finalAnswers);
    FinishReport(score, score > 70, ms, ToCriticisms(ms), if topic != "" then topic else GUIDE_TOPIC_FALLBACK)
  }

  /** With an answer for every question the score lies in 0..100, is 100
      exactly when every answer is correct (quiz sizes below 200), and there
      are as many mistakes as incorrect answers. */
  lemma FinishSummaryFacts(questions: seq<Question>, finalAnswers: seq<AnswerRecord>, topic: string)
    requires 0 < |questions| < 200 && |finalAnswers| == |questions|
    ensures var r := FinishSummary(questions, finalAnswers, topic);
            0 <= r.score <= 100 &&
            (r.score == 100 <==> CorrectCount(finalAnswers) == |questions|) &&
            |r.mistakes| == |questions| - CorrectCount(finalAnswers)
  {
    PercentBounds(CorrectCount(finalAnswers), |questions|);
    PercentFullIffAllCorrect(CorrectCount(finalAnswers), |questions|);
    MistakeCountIsIncorrectCount(questions, finalAnswers);
  }

  /** Five answers with only the fourth one wrong: four correct ones, and the
      fourth position is the only one missed. */
  lemma FourOfFiveCounts(a: seq<AnswerRecord>)
    requires |a| == 5
    requires a[0].isCorrect && a[1].isCorrect && a[2].isCorrect && !a[3].isCorrect && a[4].isCorrect
    ensures CorrectCount(a) == 4
    ensures MissedIndices(a, 5) == [3]
  {
    FourOfFiveCorrect(a);
    assert MissedIndices(a, 3) == [];
    assert MissedIndices(a, 4) == [3];
  }

  lemma FourOfFiveCorrect(a: seq<AnswerRecord>)
    requires |a| == 5
    requires a[0].isCorrect && a[1].isCorrect && a[2].isCorrect && !a[3].isCorrect && a[4].isCorrect
    ensures CorrectCount(a) == 4
  {
    assert a[..1][..0] == [] && Count(a[..1], RecordCorrect) == 1;
    assert a[..2][..1] == a[..1] && Count(a[..2], RecordCorrect) == 2;
    assert a[..3][..2] == a[..2] && Count(a[..3], RecordCorrect) == 3;
    assert a[..4][..3] == a[..3] && Count(a[..4], RecordCorrect) == 3;
    assert a[..5][..4] == a[..4] && Count(a[..5], RecordCorrect) == 4;
    assert a[..5] == a;
  }

  /** Five questions with the fourth one missed: 80 %, confetti, and one
      mistake naming the fourth question. */
  lemma FourOfFive(questions: seq<Question>, a: seq<AnswerRecord>)
    requires |questions| == 5 && |a| == 5
    requires a[0].isCorrect && a[1].isCorrect && a[2].isCorrect && !a[3].isCorrect && a[4].isCorrect
    ensures var r := FinishSummary(questions, a, "");
            r.score == 80 && r.confetti && r.guideTopic == GUIDE_TOPIC_FALLBACK &&
            r.mistakes == [Mistake(questions[3].text, a[3].answer, questions[3].answer)]
  {
    FourOfFiveCounts(a);
    assert Percent(4, 5) == 80;
    MistakesAreMissedQuestions(questions, a);
  }

  /** The FIB submit guard: `if (val.trim()) onAnswer(val)`. The raw, untrimmed
      text is submitted. */
  function FibSubmission(val: string): (r: Option<string>)
    ensures r.Some? <==> !IsBlank(val)
    ensures r.Some? ==> r.value == val
  {
    if IsBlank(val) then None else Some(val)
  }

  /** Text made only of white space is never submitted, and anything else is. */
  lemma FibSubmitsIffNotAllWhitespace(val: string)
    ensures FibSubmission(val).None? <==> AllWhitespace(val)
  {
    BlankIffAllWhitespace(val);
  }

  /** One answer in the game view: the record appended, the streak grown or
      reset, then the next question or the results. */
  function AnswerStep(s: SessionState, rec: AnswerRecord): (r: SessionState)
    requires s.view == Game
  {
    var s1 := s.(userAnswers := s.userAnswers + [rec], streak := if rec.isCorrect then s.streak + 1 else 0);
    if s.currentIndex + 1 < |s.questions| then s1.(currentIndex := s.currentIndex + 1)
    else s1.(view := Results, loadingGuide := true)
  }

  /** An answer keeps the invariant: the streak stays the trailing run of
      correct answers, and the quiz finishes exactly on its last question,
      with one answer per question. */
  lemma AnswerStepKeepsInv(s: SessionState, rec: AnswerRecord)
    requires Inv(s) && s.view == Game
    ensures var r := AnswerStep(s, rec);
            Inv(r) && r.userAnswers == s.userAnswers + [rec] &&
            r.questions == s.questions && r.topic == s.topic &&
            (r.view == Results <==> s.currentIndex == |s.questions| - 1) &&
            (r.view == Game ==> r.currentIndex == s.currentIndex + 1)
  {
    TrailingCorrectStep(s.userAnswers, rec);
  }

  class Session {
    var view: View
    var topic: string
    var file: Option<FileRef>
    var selectedTypes: seq<QuestionType>
    var difficulty: string
    var qCount: int
    var questions: seq<Question>
    var currentIndex: nat
    var userAnswers: seq<AnswerRecord>
    var streak: nat
    var aiFeedback: string
    var studyGuide: string
    var loadingGuide: bool

    function State(): SessionState
      reads this
    {
      SessionState(view, topic, file, selectedTypes, difficulty, qCount, questions,
                   currentIndex, userAnswers, streak, aiFeedback, studyGuide, loadingGuide)
    }

    ghost predicate Valid()
      reads this
    {
      Inv(State())
    }

    constructor ()
      ensures State() == INITIAL && Valid()
    {
      view, topic, file, selectedTypes, difficulty, qCount := Landing, "", None, [MCQ], "Medium", 5;
      questions, currentIndex, userAnswers, streak := [], 0, [], 0;
      aiFeedback, studyGuide, loadingGuide := "", "", false;
    }

    /** `handleStartSetup`. */
    method StartSetup()
      requires Valid() && view == Landing
      modifies this
      ensures Valid() && State() == old(State()).(view := Setup)
    {
      view := Setup;
    }

    /** The setup view's back button. */
    method BackToLanding()
      requires Valid() && view == Setup
      modifies this
      ensures Valid() && State() == old(State()).(view := Landing)
    {
      view := Landing;
    }

    /** The topic text area, shown while no file is chosen. */
    method SetTopic(t: string)
      requires Valid() && view == Setup && file.None?
      modifies this
      ensures Valid() && State() == old(State()).(topic := t)
    {
      topic := t;
    }

    /** The "Topic" mode button clears both the topic and the file. */
    method ChooseTopicMode()
      requires Valid() && view == Setup
      modifies this
      ensures Valid() && State() == old(State()).(topic := "", file := None)
    {
      topic, file := "", None;
    }

    /** The "File" mode button and "Remove File" both drop the file. */
    method ClearFile()
      requires Valid() && view == Setup
      modifies this
      ensures Valid() && State() == old(State()).(file := None)
    {
      file := None;
    }

    /** The import control is offered only when there is neither a file nor
        a topic. */
    method ImportFile(f: FileRef)
      requires Valid() && view == Setup && file.None? && topic == ""
      modifies this
      ensures Valid() && State() == old(State()).(file := Some(f))
    {
      file := Some(f);
    }

    /** The three difficulty buttons. */
    method SetDifficulty(d: string)
      requires Valid() && view == Setup && (d == "Easy" || d == "Medium" || d == "Hard")
      modifies this
      ensures Valid() && State() == old(State()).(difficulty := d)
    {
      difficulty := d;
    }

    /** The length slider, from 3 to 15. */
    method SetCount(n: int)
      requires Valid() && view == Setup && 3 <= n <= 15
      modifies this
      ensures Valid() && State() == old(State()).(qCount := n)
    {
      qCount := n;
    }

    /** A format button. */
    method ToggleType(t: QuestionType)
      requires Valid() && view == Setup
      modifies this
      ensures Valid() && State() == old(State()).(selectedTypes := QuizSetup.Toggle(old(selectedTypes), t))
    {
      selectedTypes := QuizSetup.Toggle(selectedTypes, t);
    }

    /** `handleGenerate`, enabled when there is a topic or a file. A chosen
        file replaces the topic as content. An unreadable PDF, a failed
        generation and an empty question list all end in the alert with no
        state change; otherwise a fresh game starts on the generated list. */
    method Generate(doc: PdfDocument, reply: GenerationReply)
      returns (request: Option<QuizRequest>, alert: Option<string>)
      requires Valid() && view == Setup && (topic != "" || file.Some?)
      modifies this
      ensures Valid()
      ensures file.Some? && CappedText(doc).Err? ==>
                request.None? && alert == Some(BUSY_ALERT) && State() == old(State())
      ensures !(file.Some? && CappedText(doc).Err?) ==>
                var content := if file.Some? then CappedText(doc).value else topic;
                request == Some(BuildQuizRequest(QuizSetup.GenerationTitle(topic, file), content, selectedTypes, difficulty, qCount))
      ensures !(file.Some? && CappedText(doc).Err?) && GenerateQuiz(reply, qCount).Ok? && |GenerateQuiz(reply, qCount).value| > 0 ==>
                alert.None? &&
                State() == old(State()).(questions := GenerateQuiz(reply, qCount).value, currentIndex := 0,
                                         userAnswers := [], streak := 0, view := Game)
      ensures !(file.Some? && CappedText(doc).Err?) && !(GenerateQuiz(reply, qCount).Ok? && |GenerateQuiz(reply, qCount).value| > 0) ==>
                alert == Some(BUSY_ALERT) && State() == old(State())
    {
      request, alert := None, None;
      var content := topic;
      if file.Some? {
        var extracted := ExtractTextFromPdf(doc);
        if extracted.Err? {
          alert := Some(BUSY_ALERT);
          return;
        }
        content := extracted.value;
      }
      request := Some(BuildQuizRequest(QuizSetup.GenerationTitle(topic, file), content, selectedTypes, difficulty, qCount));
      var generated := GenerateQuiz(reply, qCount);
      if generated.Err? || |generated.value| == 0 {
        alert := Some(BUSY_ALERT);
        return;
      }
      Load(State().(questions := generated.value, currentIndex := 0, userAnswers := [], streak := 0, view := Game));
    }

    /** The state updates of `handleAnswer` and of the advance it schedules. */
    method Record(rec: AnswerRecord)
      requires Valid() && view == Game
      modifies this
      ensures Valid()
      ensures State() == AnswerStep(old(State()), rec)
    {
      AnswerStepKeepsInv(State(), rec);
      Load(AnswerStep(State(), rec));
    }

    /** `handleAnswer` followed by its delayed advance: one record for the
        current question is appended and the streak updated; then the index
        moves on, or on the last question the quiz finishes over all the
        answers and the study guide starts loading. */
    method Answer(answer: string) returns (report: Option<FinishReport>)
      requires Valid() && view == Game
      modifies this
      ensures Valid()
      ensures State() == AnswerStep(old(State()), Judge(old(questions[currentIndex]), answer))
      ensures report == if view == Results then Some(FinishSummary(questions, userAnswers, topic)) else None
    {
      var rec := Judge(questions[currentIndex], answer);
      Record(rec);
      report := if view == Results then Some(FinishSummary(questions, userAnswers, topic)) else None;
    }

    /** The feedback service's reply arriving (`.then(setAiFeedback)`). */
    method ReceiveFeedback(text: string)
      requires Valid()
      modifies this
      ensures Valid() && State() == old(State()).(aiFeedback := text)
    {
      aiFeedback := text;
    }

    /** The study-guide service's reply arriving. */
    method ReceiveStudyGuide(text: string)
      requires Valid()
      modifies this
      ensures Valid() && State() == old(State()).(studyGuide := text, loadingGuide := false)
    {
      studyGuide, loadingGuide := text, false;
    }

    /** `resetGame`. */
    method ResetGame()
      modifies this
      ensures Valid() && State() == ResetState(old(State()))
    {
      Load(ResetState(State()));
    }

    /** Every state hook set at once to the fields of `r`. */
    method Load(r: SessionState)
      modifies this
      ensures State() == r
    {
      view := r.view; topic := r.topic; file := r.file; selectedTypes := r.selectedTypes;
      difficulty := r.difficulty; qCount := r.qCount; questions := r.questions; currentIndex := r.currentIndex;
      userAnswers := r.userAnswers; streak := r.streak; aiFeedback := r.aiFeedback; studyGuide := r.studyGuide;
      loadingGuide := r.loadingGuide;
    }
  }
}
