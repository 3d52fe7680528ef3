/** `components/SetupPanel.tsx`: the dashboard app's setup form. Its state
    hooks are the fields of `SetupPanelState`; the start button runs an
    ordered chain of guards that either sets an error or hands a
    `QuizConfig` to the caller. Dropping a file runs `parseFile`, whose DOCX
    and plain-text readers' outcomes are parameters. */
module SetupPanel {
  import opened Common
  import opened Text
  import opened QuizTypes
  import opened PdfText
  import FileService

  datatype Mode = UploadMode | TopicMode

  const TOPIC_MISSING: string := "Please enter a topic name"
  const CONTENT_MISSING: string := "Please enter some content or notes"
  const DOCUMENT_MISSING: string := "Please upload a document first"
  const PARSE_FAILED: string := "Failed to parse file"

  /** The guard chain of `handleStart`: the topic first, then the content
      with a message that depends on the mode. On success the config carries
      the fields as typed, untrimmed, and a timer only when one is set. */
  function ValidateStart(mode: Mode, topic: string, content: string, difficulty: QuizDifficulty,
                         quizType: QuizType, count: int, timerSeconds: int): Result<QuizConfig>
  {
    if IsBlank(topic) then Err(TOPIC_MISSING)
    else if IsBlank(content) then
      match mode
      case TopicMode => Err(CONTENT_MISSING)
      case UploadMode => Err(DOCUMENT_MISSING)
    else Ok(QuizConfig(topic, content, count, None, Some(difficulty), Some(quizType),
                       if timerSeconds > 0 then Some(timerSeconds) else None))
  }

  /** Each guard's message in its turn, and a config exactly when both the
      topic and the content are not blank. */
  lemma ValidateStartOutcomes(mode: Mode, topic: string, content: string, d: QuizDifficulty, t: QuizType,
                              count: int, timer: int)
    ensures var r := ValidateStart(mode, topic, content, d, t, count, timer);
            (IsBlank(topic) ==> r == Err(TOPIC_MISSING)) &&
            (!IsBlank(topic) && IsBlank(content) && mode == TopicMode ==> r == Err(CONTENT_MISSING)) &&
            (!IsBlank(topic) && IsBlank(content) && mode == UploadMode ==> r == Err(DOCUMENT_MISSING)) &&
            (r.Ok? <==> !IsBlank(topic) && !IsBlank(content)) &&
            (r.Ok? ==> r.value.topic == topic && r.value.content == content && r.value.questionCount == count &&
                       r.value.difficulty == Some(d) && r.value.quizType == Some(t) &&
                       r.value.selectedTypes.None? &&
                       (r.value.timerSeconds.Some? <==> timer > 0) &&
                       (r.value.timerSeconds.Some? ==> r.value.timerSeconds.value == timer))
  {
  }

  lemma ValidateStartAccepts(mode: Mode, topic: string, content: string, d: QuizDifficulty, t: QuizType,
                             count: int, timer: int)
    requires !IsBlank(topic) && !IsBlank(content)
    ensures ValidateStart(mode, topic, content, d, t, count, timer).Ok?
    ensures ValidateStart(mode, topic, content, d, t, count, timer).value.topic == topic
    ensures ValidateStart(mode, topic, content, d, t, count, timer).value.content == content
  {
  }

  lemma ValidateStartNeedsText(mode: Mode, topic: string, content: string, d: QuizDifficulty, t: QuizType,
                               count: int, timer: int)
    requires ValidateStart(mode, topic, content, d, t, count, timer).Ok?
    ensures !IsBlank(topic) && !IsBlank(content)
  {
  }

  /** The topic is checked before the content: a blank topic is reported
      whatever the content and mode, and white space alone is blank. */
  lemma TopicCheckedFirst(mode: Mode, topic: string, content: string, d: QuizDifficulty, t: QuizType, n: int, timer: int)
    requires AllWhitespace(topic)
    ensures ValidateStart(mode, topic, content, d, t, n, timer) == Err(TOPIC_MISSING)
  {
    BlankIffAllWhitespace(topic);
  }

  /** Padding around the topic and the content does not change whether the
      form is accepted, and the padding is kept in the config. */
  lemma PaddingIsKept(mode: Mode, topic: string, content: string, d: QuizDifficulty, t: QuizType, n: int, timer: int)
    requires ValidateStart(mode, topic, content, d, t, n, timer).Ok?
    ensures var r := ValidateStart(mode, " " + topic + " ", content + "\n", d, t, n, timer);
            r.Ok? && r.value.topic == " " + topic + " " && r.value.content == content + "\n"
  {
    ValidateStartNeedsText(mode, topic, content, d, t, n, timer);
    PaddedNotBlank(" ", topic, " ");
    AppendedNotBlank(content, "\n");
    ValidateStartAccepts(mode, " " + topic + " ", content + "\n", d, t, n, timer);
  }

  /** The topic a successful parse proposes: the current one when there is
      one, otherwise the file name up to its first dot. */
  function DroppedTopic(topic: string, fileName: string): (r: string)
    ensures topic != "" ==> r == topic
    ensures topic == "" ==> r <= fileName && '.' !in r && (|r| < |fileName| ==> fileName[|r|] == '.')
  {
    if topic == "" then BeforeFirst(fileName, '.') else topic
  }

  /** Only the part before the first dot is kept: the name's stem, however
      many extensions follow, and the empty topic for a name starting with a
      dot. */
  lemma DroppedTopicIsStem(stem: string, rest: string)
    requires '.' !in stem
    ensures DroppedTopic("", stem + "." + rest) == stem
    ensures DroppedTopic("", stem) == stem
  {
    BeforeFirstSplit(stem, '.', rest);
  }

  /** `quiz.tar.gz` gives `quiz`; `.env` gives the empty topic. */
  lemma DroppedTopicExamples()
    ensures DroppedTopic("", "quiz.tar.gz") == "quiz"
    ensures DroppedTopic("", ".env") == ""
  {
    StemOfArchiveName();
    StemOfDotName();
  }

  lemma StemOfArchiveName()
    ensures DroppedTopic("", "quiz.tar.gz") == "quiz"
  {
    var stem, rest := "quiz", "tar.gz";
    assert stem + "." + rest == "quiz.tar.gz";
    DroppedTopicIsStem(stem, rest);
  }

  lemma StemOfDotName()
    ensures DroppedTopic("", ".env") == ""
  {
    assert ".env"[0] == '.';
  }

  /** The message a failed parse shows: the error's own, or a fixed one when
      it has none. */
  function ParseError(message: string): (e: string)
    ensures e != ""
    ensures message != "" ==> e == message
  {
    if message != "" then message else PARSE_FAILED
  }

  /** A snapshot of the form's state hooks. */
  datatype PanelState = PanelState(
    mode: Mode,
    topic: string,
    content: string,
    fileName: string,
    difficulty: QuizDifficulty,
    quizType: QuizType,
    count: int,
    timerSeconds: int,
    error: string,
    isParsing: bool)

  class SetupPanelState {
    var mode: Mode
    var topic: string
    var content: string
    var fileName: string
    var difficulty: QuizDifficulty
    var quizType: QuizType
    var count: int
    var timerSeconds: int
    var error: string
    var isParsing: bool

    /** Every state hook of the form at once. */
    function State(): PanelState
      reads this
    {
      PanelState(mode, topic, content, fileName, difficulty, quizType, count, timerSeconds, error, isParsing)
    }

    /** The form starts in upload mode with ten medium multiple-choice
        questions and no timer. */
    constructor ()
      ensures mode == UploadMode && topic == "" && content == "" && fileName == "" && error == "" && !isParsing
      ensures difficulty == MEDIUM && quizType == McqQuiz && count == DEFAULT_QUESTION_COUNT && timerSeconds == 0
    {
      mode, topic, content, fileName := UploadMode, "", "", "";
      difficulty, quizType, count, timerSeconds := MEDIUM, McqQuiz, DEFAULT_QUESTION_COUNT, 0;
      error, isParsing := "", false;
    }

    /** `onDrop` over the accepted files: nothing without a file; otherwise
        the error is cleared and `parseFile` runs on the first file. Its text
        becomes the content, its name the file name and, when no topic is
        typed, the topic; a failure shows its message and keeps the content. */
    method OnDrop(accepted: seq<FileRef>, pdf: PdfDocument, docx: Result<string>, txt: Result<string>)
      requires mode == UploadMode
      modifies this
      ensures accepted == [] ==>
                content == old(content) && fileName == old(fileName) && topic == old(topic) && error == old(error) &&
                isParsing == old(isParsing)
      ensures accepted != [] ==>
                var f := accepted[0];
                var parsed := FileService.ParseOutcome(f, pdf, docx, txt);
                !isParsing &&
                (parsed.Ok? ==> content == parsed.value && fileName == f.name &&
                                topic == DroppedTopic(old(topic), f.name) && error == "") &&
                (parsed.Err? ==> content == old(content) && fileName == old(fileName) && topic == old(topic) &&
                                 error == ParseError(parsed.message))
      ensures mode == old(mode) && difficulty == old(difficulty) && quizType == old(quizType)
      ensures count == old(count) && timerSeconds == old(timerSeconds)
    {
      if |accepted| == 0 {
        return;
      }
      var f := accepted[0];
      isParsing := true;
      error := "";
      var parsed := FileService.ParseFile(f, pdf, docx, txt);
      if parsed.Ok? {
        content := parsed.value;
        fileName := f.name;
        if topic == "" {
          topic := BeforeFirst(f.name, '.');
        }
      } else {
        error := ParseError(parsed.message);
      }
      isParsing := false;
    }

    /** `handleStart`: an invalid form sets the error; a valid one is handed
        over as a config, and the error is left as it was. */
    method HandleStart() returns (config: Option<QuizConfig>)
      modifies this
      ensures var v := ValidateStart(old(mode), old(topic), old(content), old(difficulty), old(quizType),
                                     old(count), old(timerSeconds));
              (v.Err? ==> config.None? && error == v.message) &&
              (v.Ok? ==> config == Some(v.value) && error == old(error))
      ensures mode == old(mode) && topic == old(topic) && content == old(content) && fileName == old(fileName)
      ensures difficulty == old(difficulty) && quizType == old(quizType) && count == old(count)
      ensures timerSeconds == old(timerSeconds) && isParsing == old(isParsing)
    {
      var v := ValidateStart(mode, topic, content, difficulty, quizType, count, timerSeconds);
      if v.Err? {
        error := v.message;
        config := None;
      } else {
        config := Some(v.value);
      }
    }

    /** The "Upload Material" tab: only the mode changes. */
    method ChooseUpload()
      modifies this
      ensures State() == old(State()).(mode := UploadMode)
    {
      mode := UploadMode;
    }

    /** The "Topic / Text Mode" tab clears the file name and the content;
        nothing else changes. */
    method ChooseTopic()
      modifies this
      ensures State() == old(State()).(mode := TopicMode, fileName := "", content := "")
    {
      mode, fileName, content := TopicMode, "", "";
    }

    /** The "Remove" button of a parsed file clears its name and its text. */
    method RemoveFile()
      requires mode == UploadMode
      modifies this
      ensures State() == old(State()).(fileName := "", content := "")
    {
      fileName, content := "", "";
    }

    /** The topic input, shown in both modes. */
    method SetTopic(t: string)
      modifies this
      ensures State() == old(State()).(topic := t)
    {
      topic := t;
    }

    /** The content text area, shown in topic mode. */
    method SetContent(c: string)
      requires mode == TopicMode
      modifies this
      ensures State() == old(State()).(content := c)
    {
      content := c;
    }

    method SetDifficulty(d: QuizDifficulty)
      modifies this
      ensures State() == old(State()).(difficulty := d)
    {
      difficulty := d;
    }

    method SetQuizType(t: QuizType)
      modifies this
      ensures State() == old(State()).(quizType := t)
    {
      quizType := t;
    }

    /** The question-count slider runs from `MIN_QUESTIONS` to `MAX_QUESTIONS`. */
    method SetCount(n: int)
      requires MIN_QUESTIONS <= n <= MAX_QUESTIONS
      modifies this
      ensures State() == old(State()).(count := n)
    {
      count := n;
    }

    /** The timer slider runs from 0 (off) to 120 seconds in steps of 10. */
    method SetTimer(seconds: int)
      requires 0 <= seconds <= 120 && seconds % 10 == 0
      modifies this
      ensures State() == old(State()).(timerSeconds := seconds)
    {
      timerSeconds := seconds;
    }
  }
}
