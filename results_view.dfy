/** `components/ResultsView.tsx`: what the dashboard app's results screen
    derives from a finished quiz: the score and counts, whether confetti and
    a study guide are due, the rows of the report table and the study-guide
    text with its markdown characters removed. The chart, the PDF layout and
    the service call are presentation and I/O. */
module ResultsView {
  import opened Common
  import opened Seqs
  import opened Text
  import opened QuizTypes
  import opened Scoring
  import GeminiService

  /** `score`: the rounded percentage of correct answers over the number of
      questions. */
  function Score(questions: seq<QuizQuestion>, answers: seq<UserAnswer>): int
    requires |questions| > 0
  {
    Percent(UserCorrectCount(answers), |questions|)
  }

  /** `incorrectCount`: the questions not answered correctly. */
  function IncorrectCount(questions: seq<QuizQuestion>, answers: seq<UserAnswer>): (n: int)
    ensures n + UserCorrectCount(answers) == |questions|
    ensures |answers| <= |questions| ==> n >= 0
  {
    |questions| - UserCorrectCount(answers)
  }

  /** With at most one answer per question the score lies in 0..100, and it
      is 0 exactly when nothing was answered correctly. */
  lemma ScoreFacts(questions: seq<QuizQuestion>, answers: seq<UserAnswer>)
    requires 0 < |questions| && |answers| <= |questions|
    ensures 0 <= Score(questions, answers) <= 100
    ensures UserCorrectCount(answers) == 0 ==> Score(questions, answers) == 0
    ensures |questions| < 200 ==> (Score(questions, answers) == 100 <==> IncorrectCount(questions, answers) == 0)
  {
    var c := UserCorrectCount(answers);
    PercentBounds(c, |questions|);
    PercentExtremes(|questions|);
    if |questions| < 200 {
      PercentFullIffAllCorrect(c, |questions|);
    }
  }

  /** The confetti effect: a score of at least 70 outside review mode. */
  predicate ShowsConfetti(score: int, isReviewMode: bool) {
    score >= 70 && !isReviewMode
  }

  /** Outside review mode the confetti is due exactly when at least 69.5 %
      of the questions are answered correctly: the rounded score reaches 70
      from there on. The threshold is inclusive, unlike the strict `> 70`
      of the single-file app. */
  lemma ConfettiThreshold(questions: seq<QuizQuestion>, answers: seq<UserAnswer>, isReviewMode: bool)
    requires |questions| > 0
    ensures ShowsConfetti(Score(questions, answers), isReviewMode) <==>
            !isReviewMode && 200 * UserCorrectCount(answers) >= 139 * |questions|
  {
    var n, r := |questions|, Score(questions, answers);
    PercentBracket(UserCorrectCount(answers), n);
    if r > 70 {
      MulStrict(2 * n, 70, r);
    } else if r < 70 {
      MulStrict(2 * n, r, 70);
    }
  }

  /** The answers handed to the study guide: the incorrect ones, in order. */
  function IncorrectAnswers(answers: seq<UserAnswer>): (r: seq<UserAnswer>)
    ensures forall i :: 0 <= i < |r| ==> r[i] in answers && !r[i].isCorrect
    ensures forall i :: 0 <= i < |answers| && !answers[i].isCorrect ==> answers[i] in r
    ensures |r| + UserCorrectCount(answers) == |answers|
  {
    CountComplement(answers, UserAnswerCorrect, UserAnswerWrong);
    FilterMembers(answers, UserAnswerWrong);
    Filter(answers, UserAnswerWrong)
  }

  function UserAnswerWrong(a: UserAnswer): bool {
    !a.isCorrect
  }

  /** The mount effect: a study guide is requested when some question is not
      answered correctly, outside review mode, and when no guide is shown
      yet (`!studyGuide`: none, or an empty one). */
  predicate FetchesGuide(questions: seq<QuizQuestion>, answers: seq<UserAnswer>, isReviewMode: bool,
                         studyGuide: Option<string>)
  {
    IncorrectCount(questions, answers) > 0 && !isReviewMode && (studyGuide.None? || studyGuide.value == "")
  }

  /** With one answer per question a guide is requested exactly when some
      answer is wrong, so the study-guide service never gets an empty list
      and never answers with its mastery text here. */
  lemma FetchedGuideHasMistakes(questions: seq<QuizQuestion>, answers: seq<UserAnswer>, reply: GeminiService.TextReply)
    requires |answers| == |questions| && FetchesGuide(questions, answers, false, None)
    ensures |IncorrectAnswers(answers)| > 0
    ensures GeminiService.StudyGuide(IncorrectAnswers(answers), reply) != GeminiService.MASTERY_GUIDE ||
            (reply.Replied? && reply.text == Some(GeminiService.MASTERY_GUIDE))
  {
  }

  /** `answers.find(a => a.questionId === id)`: the first answer to the
      question. */
  function FindAnswer(answers: seq<UserAnswer>, id: int): (r: Option<UserAnswer>)
    ensures r.None? <==> forall i :: 0 <= i < |answers| ==> answers[i].questionId != id
    ensures r.Some? ==> exists i :: 0 <= i < |answers| && answers[i] == r.value && answers[i].questionId == id &&
                          forall j :: 0 <= j < i ==> answers[j].questionId != id
  {
    if |answers| == 0 then None
    else if answers[0].questionId == id then
      assert answers[0] == answers[0];
      Some(answers[0])
    else
      var r := FindAnswer(answers[1..], id);
      if r.Some? then
        var k :| 0 <= k < |answers[1..]| && answers[1..][k] == r.value && answers[1..][k].questionId == id &&
                 forall j :: 0 <= j < k ==> answers[1..][j].questionId != id;
        assert answers[k + 1] == r.value;
        r
      else r
  }

  /** One row of the report table. */
  datatype Row = Row(number: string, question: string, given: string, expected: string, status: string)

  /** Row `i`: its number, the question, the first answer to it (`-` when
      there is none or it is empty), the right answer, and `Correct` only
      when that first answer is correct. */
  function TableRow(i: nat, q: QuizQuestion, answers: seq<UserAnswer>): (r: Row)
    ensures r.number == "Q" + NatToString(i + 1) && r.question == q.question && r.expected == q.answer
    ensures r.status == "Correct" <==> FindAnswer(answers, q.id).Some? && FindAnswer(answers, q.id).value.isCorrect
    ensures r.status != "Correct" ==> r.status == "Incorrect"
    ensures r.given == "-" <==> FindAnswer(answers, q.id).None? || FindAnswer(answers, q.id).value.selectedOption in {"", "-"}
    ensures FindAnswer(answers, q.id).Some? && FindAnswer(answers, q.id).value.selectedOption != "" ==>
              r.given == FindAnswer(answers, q.id).value.selectedOption
  {
    var a := FindAnswer(answers, q.id);
    var given := if a.Some? && a.value.selectedOption != "" then a.value.selectedOption else "-";
    var status := if a.Some? && a.value.isCorrect then "Correct" else "Incorrect";
    assert "Incorrect" != "Correct" by { assert "Incorrect"[0] != "Correct"[0]; }
    Row("Q" + NatToString(i + 1), q.question, given, q.answer, status)
  }

  /** `tableData`: one row per question, in question order. */
  function TableData(questions: seq<QuizQuestion>, answers: seq<UserAnswer>): (rows: seq<Row>)
    ensures |rows| == |questions|
    ensures forall i :: 0 <= i < |questions| ==> rows[i] == TableRow(i, questions[i], answers)
  {
    seq(|questions|, i requires 0 <= i < |questions| => TableRow(i, questions[i], answers))
  }

  /** The row numbers are all different. */
  lemma RowNumbersDistinct(questions: seq<QuizQuestion>, answers: seq<UserAnswer>, i: nat, j: nat)
    requires i < j < |questions|
    ensures TableData(questions, answers)[i].number != TableData(questions, answers)[j].number
  {
    var rows := TableData(questions, answers);
    assert rows[i].number[1..] == NatToString(i + 1);
    assert rows[j].number[1..] == NatToString(j + 1);
    if rows[i].number == rows[j].number {
      NatToStringInjective(i + 1, j + 1);
    }
  }

  /** The markdown characters removed from the study guide before export. */
  const MARKDOWN: set<char> := {'*', '_', '#', '`'}

  /** `studyGuide.replace(/[*_#`]/g, '')`. */
  function CleanGuide(text: string): (r: string)
    ensures forall i :: 0 <= i < |r| ==> r[i] !in MARKDOWN
  {
    RemoveChars(text, MARKDOWN)
  }

  /** Cleaning removes exactly the markdown characters: every other character
      keeps its number of occurrences, it works piece by piece (so the order
      is kept), and clean text is left alone. */
  lemma CleanGuideKeepsText(a: string, b: string)
    ensures forall c :: c !in MARKDOWN ==> multiset(CleanGuide(a))[c] == multiset(a)[c]
    ensures CleanGuide(a + b) == CleanGuide(a) + CleanGuide(b)
    ensures CleanGuide(CleanGuide(a)) == CleanGuide(a)
  {
    forall c | c !in MARKDOWN
      ensures multiset(CleanGuide(a))[c] == multiset(a)[c]
    {
      RemoveCharsCounts(a, MARKDOWN, c);
    }
    RemoveCharsAppend(a, b, MARKDOWN);
    RemoveCharsNoop(CleanGuide(a), MARKDOWN);
  }

  /** `## **Tip**` becomes ` Tip`. */
  lemma CleanGuideExample()
    ensures CleanGuide("## **Tip**") == " Tip"
  {
    assert "## **Tip**" == "## **" + "Tip**";
    RemoveCharsAppend("## **", "Tip**", MARKDOWN);
    HeadingMarksCleaned();
    BoldEndCleaned();
  }

  lemma BoldEndCleaned()
    ensures RemoveChars("Tip**", MARKDOWN) == "Tip"
  {
    assert "Tip**" == "Tip" + "**";
    RemoveCharsAppend("Tip", "**", MARKDOWN);
    RemoveCharsNoop("Tip", MARKDOWN);
    OnlyMarkdown("**");
  }

  lemma HeadingMarksCleaned()
    ensures RemoveChars("## **", MARKDOWN) == " "
  {
    var hashes, space, stars := "##", " ", "**";
    assert "## **" == (hashes + space) + stars;
    OnlyMarkdown(hashes);
    OnlyMarkdown(stars);
    RemoveCharsNoop(space, MARKDOWN);
    RemoveCharsAppend(hashes, space, MARKDOWN);
    assert RemoveChars(hashes + space, MARKDOWN) == space;
    RemoveCharsAppend(hashes + space, stars, MARKDOWN);
  }

  lemma OnlyMarkdown(s: string)
    requires |s| == 2 && s[0] in MARKDOWN && s[1] in MARKDOWN
    ensures RemoveChars(s, MARKDOWN) == []
  {
    assert s[..1][..0] == [];
  }

}
