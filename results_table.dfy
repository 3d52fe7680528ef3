/** `components/ResultsTable.tsx`: the score line and the rows of the exported
    PDF report on the results screen that reads the `quizStore` store. The
    list it divides by, `activeQuestions`, is not defined by that store, so
    its length is a parameter here. */
module ResultsTable {
  import opened Seqs
  import opened Text
  import opened QuizTypes
  import opened Scoring

  /** `score`: the rounded percentage of correct answers over the number of
      active questions. */
  function Score(userAnswers: seq<UserAnswer>, activeCount: nat): int
    requires activeCount > 0
  {
    Percent(UserCorrectCount(userAnswers), activeCount)
  }

  /** `hasIncorrect`: fewer correct answers than active questions. */
  predicate HasIncorrect(userAnswers: seq<UserAnswer>, activeCount: nat) {
    UserCorrectCount(userAnswers) < activeCount
  }

  /** With one answer per active question the score lies in 0..100, and (for
      fewer than 200 questions, where rounding cannot reach 100 early) a
      wrong answer exists exactly when the score is below 100. */
  lemma ScoreAndIncorrect(userAnswers: seq<UserAnswer>, activeCount: nat)
    requires 0 < activeCount && |userAnswers| == activeCount
    ensures 0 <= Score(userAnswers, activeCount) <= 100
    ensures HasIncorrect(userAnswers, activeCount) <==> exists i :: 0 <= i < |userAnswers| && !userAnswers[i].isCorrect
    ensures activeCount < 200 ==> (HasIncorrect(userAnswers, activeCount) <==> Score(userAnswers, activeCount) < 100)
  {
    var c := UserCorrectCount(userAnswers);
    PercentBounds(c, activeCount);
    CountExtremes(userAnswers, UserAnswerCorrect);
    if activeCount < 200 {
      PercentFullIffAllCorrect(c, activeCount);
    }
  }

  /** One row of the exported report. */
  datatype ExportRow = ExportRow(number: string, question: string, userInput: string, correctKey: string, status: string)

  const PASS: string := "PASS"
  const FAIL: string := "FAIL"

  /** The question column: the first 50 characters followed by `...`,
      whether or not anything was cut. */
  function QuestionCell(text: string): (cell: string)
    ensures |cell| == (if |text| < 50 then |text| else 50) + 3
    ensures cell[..|cell| - 3] <= text && EndsWith(cell, "...")
    ensures |text| <= 50 ==> cell == text + "..."
  {
    var head := Take(text, 50);
    assert (head + "...")[..|head|] == head;
    head + "..."
  }

  /** Row `i` of the export: `Q{i+1}`, the shortened question, the answer given,
      the right answer, and `PASS` for a correct answer, `FAIL` otherwise. */
  function ExportRowOf(i: nat, a: UserAnswer): (r: ExportRow)
    ensures r.number == "Q" + NatToString(i + 1)
    ensures r.question == QuestionCell(a.questionText)
    ensures r.userInput == a.selectedOption && r.correctKey == a.correctAnswer
    ensures r.status == PASS <==> a.isCorrect
    ensures r.status == FAIL <==> !a.isCorrect
  {
    assert PASS != FAIL by { assert PASS[0] != FAIL[0]; }
    ExportRow("Q" + NatToString(i + 1), QuestionCell(a.questionText), a.selectedOption, a.correctAnswer,
              if a.isCorrect then PASS else FAIL)
  }

  /** `rows`: one row per recorded answer, in answer order. */
  function ExportRows(userAnswers: seq<UserAnswer>): (rows: seq<ExportRow>)
    ensures |rows| == |userAnswers|
    ensures forall i :: 0 <= i < |rows| ==> rows[i] == ExportRowOf(i, userAnswers[i])
  {
    seq(|userAnswers|, i requires 0 <= i < |userAnswers| => ExportRowOf(i, userAnswers[i]))
  }

  predicate Passed(r: ExportRow) {
    r.status == PASS
  }

  /** The report has as many `PASS` rows as there are correct answers, so
      with one answer per active question it has a `FAIL` row exactly when
      `hasIncorrect` holds. */
  lemma {:induction false} PassRowsAreCorrectAnswers(userAnswers: seq<UserAnswer>)
    ensures Count(ExportRows(userAnswers), Passed) == UserCorrectCount(userAnswers)
    decreases |userAnswers|
  {
    var n := |userAnswers|;
    if n > 0 {
      var front := userAnswers[..n - 1];
      var rows := ExportRows(userAnswers);
      assert rows[..n - 1] == ExportRows(front);
      PassRowsAreCorrectAnswers(front);
      assert userAnswers[..n - 1] == front;
    }
  }

  /** Row labels never repeat. */
  lemma RowLabelsDistinct(userAnswers: seq<UserAnswer>, i: nat, j: nat)
    requires i < j < |userAnswers|
    ensures ExportRows(userAnswers)[i].number != ExportRows(userAnswers)[j].number
  {
    var rows := ExportRows(userAnswers);
    assert rows[i].number[1..] == NatToString(i + 1);
    assert rows[j].number[1..] == NatToString(j + 1);
    if rows[i].number == rows[j].number {
      NatToStringInjective(i + 1, j + 1);
    }
  }

  /** A short question still gets the dots: `Capital?` becomes `Capital?...`. */
  lemma ShortQuestionGetsDots()
    ensures QuestionCell("Capital?") == "Capital?..."
  {
  }
}
