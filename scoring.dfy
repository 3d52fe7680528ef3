/** Answer judging and the score, streak and mistake derivations that the
    single-file apps (`App.tsx`, `src/App.tsx`) and the result views share. */
module Scoring {
  import opened Common
  import opened Seqs
  import opened Text
  import opened QuizTypes

  /** `Math.round(num / den)` for a positive denominator: the nearest integer,
      halves rounded up. */
  function RoundDiv(num: int, den: int): int
    requires den > 0
  {
    (2 * num + den) / (2 * den)
  }

  /** The rounded quotient `r` is the integer with `r - 1/2 <= num / den < r + 1/2`. */
  lemma RoundDivBracket(num: int, den: int)
    requires den > 0
    ensures var r := RoundDiv(num, den);
            2 * den * r <= 2 * num + den < 2 * den * r + 2 * den
  {
  }

  /** Multiplying by a positive factor keeps a strict order with room to spare. */
  lemma {:induction false} MulStrict(k: int, a: int, b: int)
    requires k > 0 && a < b
    ensures k * a + k <= k * b
    decreases b - a
  {
    if b > a + 1 {
      MulStrict(k, a, b - 1);
    }
    assert k * b == k * (b - 1) + k;
  }

  /** Only one integer lies in the rounding bracket. */
  lemma RoundDivUnique(num: int, den: int, r: int)
    requires den > 0
    requires 2 * den * r <= 2 * num + den < 2 * den * r + 2 * den
    ensures RoundDiv(num, den) == r
  {
    var q := RoundDiv(num, den);
    RoundDivBracket(num, den);
    if q < r {
      MulStrict(2 * den, q, r);
    } else if q > r {
      MulStrict(2 * den, r, q);
    }
  }

  /** The percentage score `Math.round((correct / total) * 100)`. */
  function Percent(correct: int, total: int): int
    requires total > 0
  {
    RoundDiv(100 * correct, total)
  }

  lemma PercentBracket(correct: int, total: int)
    requires total > 0
    ensures var r := Percent(correct, total);
            2 * total * r <= 200 * correct + total < 2 * total * r + 2 * total
  {
    RoundDivBracket(100 * correct, total);
  }

  /** A count between none and all of the questions scores between 0 and 100. */
  lemma PercentBounds(correct: int, total: int)
    requires total > 0 && 0 <= correct <= total
    ensures 0 <= Percent(correct, total) <= 100
  {
    var r := Percent(correct, total);
    PercentBracket(correct, total);
    if r < 0 {
      MulStrict(2 * total, r, 0);
    } else if r > 100 {
      MulStrict(2 * total, 100, r);
    }
  }

  /** No correct answers scores 0 and all correct scores 100. */
  lemma PercentExtremes(total: int)
    requires total > 0
    ensures Percent(0, total) == 0
    ensures Percent(total, total) == 100
  {
    RoundDivUnique(0, total, 0);
    RoundDivUnique(100 * total, total, 100);
  }

  /** More correct answers never lower the score. */
  lemma PercentMonotone(c1: int, c2: int, total: int)
    requires total > 0 && c1 <= c2
    ensures Percent(c1, total) <= Percent(c2, total)
  {
    var r1, r2 := Percent(c1, total), Percent(c2, total);
    PercentBracket(c1, total);
    PercentBracket(c2, total);
    if r1 > r2 {
      MulStrict(2 * total, r2, r1);
    }
  }

  /** With fewer than 200 questions (the quiz sizes go up to 20), a score of 100
      means every answer was correct; at 200 questions one miss still rounds up. */
  lemma PercentFullIffAllCorrect(correct: int, total: int)
    requires 0 < total < 200 && 0 <= correct <= total
    ensures Percent(correct, total) == 100 <==> correct == total
  {
    PercentExtremes(total);
    PercentBracket(correct, total);
    if Percent(correct, total) == 100 {
      assert 200 * total <= 200 * correct + total;
    }
  }

  /** 199 correct out of 200 already rounds to a full score. */
  lemma PercentRoundsUpAtTwoHundred()
    ensures Percent(199, 200) == 100
  {
    RoundDivUnique(100 * 199, 200, 100);
  }

  /** The answer check of the single-file apps and the store-driven game:
      `answer.toLowerCase().trim() === expected.toLowerCase().trim()`. */
  predicate IsCorrectAnswer(given: string, expected: string) {
    Trim(Lower(given)) == Trim(Lower(expected))
  }

  /** The check compares the trimmed strings without regard to ASCII case. */
  lemma CorrectIffTrimmedCaseless(given: string, expected: string)
    ensures IsCorrectAnswer(given, expected) <==> Lower(Trim(given)) == Lower(Trim(expected))
  {
    LowerTrimCommute(given);
    LowerTrimCommute(expected);
  }

  /** White space around a submitted answer never changes the verdict. */
  lemma CorrectIgnoresPadding(a: string, given: string, b: string, expected: string)
    requires AllWhitespace(a) && AllWhitespace(b)
    ensures IsCorrectAnswer(a + given + b, expected) <==> IsCorrectAnswer(given, expected)
  {
    var lg := Lower(given);
    assert Lower(a + given + b) == Lower(a) + lg + Lower(b);
    LowerKeepsWhitespace(a);
    LowerKeepsWhitespace(b);
    TrimPadded(a, lg, b);
  }

  /** `" Paris "` is accepted for `"Paris"`. */
  lemma PaddedParisIsCorrect()
    ensures IsCorrectAnswer(" Paris ", "Paris")
  {
    assert " Paris " == " " + "Paris" + " ";
    CorrectIgnoresPadding(" ", "Paris", " ", "Paris");
  }

  /** The record `handleAnswer` builds in both single-file apps for an answer to `q`. */
  function Judge(q: Question, answer: string): (r: AnswerRecord)
    ensures r.questionId == q.id && r.answer == answer
    ensures r.isCorrect <==> IsCorrectAnswer(answer, q.answer)
  {
    AnswerRecord(q.id, answer, IsCorrectAnswer(answer, q.answer))
  }

  function RecordCorrect(a: AnswerRecord): bool {
    a.isCorrect
  }

  /** `answers.filter(a => a.isCorrect).length`. */
  function CorrectCount(answers: seq<AnswerRecord>): (n: nat)
    ensures n <= |answers|
  {
    Count(answers, RecordCorrect)
  }

  lemma CorrectCountAppend(answers: seq<AnswerRecord>, a: AnswerRecord)
    ensures CorrectCount(answers + [a]) == CorrectCount(answers) + (if a.isCorrect then 1 else 0)
  {
    assert (answers + [a])[..|answers + [a]| - 1] == answers;
  }

  function UserAnswerCorrect(a: UserAnswer): bool {
    a.isCorrect
  }

  /** `answers.filter(a => a.isCorrect).length` over the recorded
      `UserAnswer`s of the store-driven screens. */
  function UserCorrectCount(answers: seq<UserAnswer>): (n: nat)
    ensures n <= |answers|
  {
    Count(answers, UserAnswerCorrect)
  }

  /** The number of correct answers at the end of `answers` without a miss
      between them: the value the streak counter tracks. */
  function TrailingCorrect(answers: seq<AnswerRecord>): (n: nat)
    ensures n <= |answers|
    ensures forall i :: |answers| - n <= i < |answers| ==> answers[i].isCorrect
    ensures n < |answers| ==> !answers[|answers| - 1 - n].isCorrect
  {
    if |answers| == 0 || !answers[|answers| - 1].isCorrect then 0
    else TrailingCorrect(answers[..|answers| - 1]) + 1
  }

  /** The streak grows by one on a hit and drops to zero on a miss. */
  lemma TrailingCorrectStep(answers: seq<AnswerRecord>, a: AnswerRecord)
    ensures TrailingCorrect(answers + [a]) == if a.isCorrect then TrailingCorrect(answers) + 1 else 0
  {
    assert (answers + [a])[..|answers + [a]| - 1] == answers;
  }

  /** `questions.map((q, i) => finalAnswers[i] && !finalAnswers[i].isCorrect ? {...} : null)`. */
  function MistakeCandidates(questions: seq<Question>, answers: seq<AnswerRecord>): seq<Option<Mistake>> {
    seq(|questions|, i requires 0 <= i < |questions| =>
      if i < |answers| && !answers[i].isCorrect
      then Some(Mistake(questions[i].text, answers[i].answer, questions[i].answer))
      else None)
  }

  /** `.filter(Boolean)`: the present entries, in order. */
  function Present<T>(s: seq<Option<T>>): seq<T> {
    if |s| == 0 then []
    else Present(s[..|s| - 1]) + (if s[|s| - 1].Some? then [s[|s| - 1].value] else [])
  }

  /** The mistakes list built when a quiz finishes. */
  function Mistakes(questions: seq<Question>, answers: seq<AnswerRecord>): seq<Mistake> {
    Present(MistakeCandidates(questions, answers))
  }

  /** The positions below `n` that hold an incorrect answer, in increasing order. */
  function MissedIndices(answers: seq<AnswerRecord>, n: nat): (idx: seq<nat>)
    ensures forall k :: 0 <= k < |idx| ==> idx[k] < n && idx[k] < |answers| && !answers[idx[k]].isCorrect
  {
    if n == 0 then []
    else MissedIndices(answers, n - 1) + (if n - 1 < |answers| && !answers[n - 1].isCorrect then [n - 1] else [])
  }

  /** Every incorrect answer below `n` is listed. */
  lemma {:induction false} MissedIndicesComplete(answers: seq<AnswerRecord>, n: nat)
    ensures forall i :: 0 <= i < n && i < |answers| && !answers[i].isCorrect ==> i in MissedIndices(answers, n)
    decreases n
  {
    if n > 0 {
      MissedIndicesComplete(answers, n - 1);
      var prev := MissedIndices(answers, n - 1);
      var idx := MissedIndices(answers, n);
      var tail := if n - 1 < |answers| && !answers[n - 1].isCorrect then [n - 1] else [];
      assert idx == prev + tail;
      forall i | 0 <= i < n && i < |answers| && !answers[i].isCorrect
        ensures i in idx
      {
        if i < n - 1 {
          assert i in prev;
        } else {
          assert i in tail;
        }
      }
    }
  }

  /** The listed positions increase. */
  lemma {:induction false} MissedIndicesIncrease(answers: seq<AnswerRecord>, n: nat)
    ensures forall k, l :: 0 <= k < l < |MissedIndices(answers, n)| ==>
              MissedIndices(answers, n)[k] < MissedIndices(answers, n)[l]
    decreases n
  {
    if n > 0 {
      MissedIndicesIncrease(answers, n - 1);
      var prev := MissedIndices(answers, n - 1);
      var idx := MissedIndices(answers, n);
      forall k, l | 0 <= k < l < |idx|
        ensures idx[k] < idx[l]
      {
        assert idx[k] == prev[k];
        if l < |prev| {
          assert idx[l] == prev[l] && prev[k] < prev[l];
        } else {
          assert idx == prev + [n - 1];
          assert idx[l] == n - 1 && prev[k] < n - 1;
        }
      }
    }
  }

  function MistakeAt(questions: seq<Question>, answers: seq<AnswerRecord>, i: nat): Mistake
    requires i < |questions| && i < |answers|
  {
    Mistake(questions[i].text, answers[i].answer, questions[i].answer)
  }

  lemma {:induction false} MistakesPrefix(questions: seq<Question>, answers: seq<AnswerRecord>, m: nat)
    requires m <= |questions|
    ensures var ms := Present(MistakeCandidates(questions, answers)[..m]);
            var idx := MissedIndices(answers, m);
            |ms| == |idx| &&
            forall k :: 0 <= k < |idx| ==> ms[k] == MistakeAt(questions, answers, idx[k])
    decreases m
  {
    if m > 0 {
      MistakesPrefix(questions, answers, m - 1);
      var c := MistakeCandidates(questions, answers);
      assert c[..m][..m - 1] == c[..m - 1];
    }
  }

  /** The mistakes list holds, in question order, exactly the questions whose
      answer at the same position is incorrect. */
  lemma MistakesAreMissedQuestions(questions: seq<Question>, answers: seq<AnswerRecord>)
    ensures var idx := MissedIndices(answers, |questions|);
            |Mistakes(questions, answers)| == |idx| &&
            forall k :: 0 <= k < |idx| ==> Mistakes(questions, answers)[k] == MistakeAt(questions, answers, idx[k])
  {
    var c := MistakeCandidates(questions, answers);
    assert c[..|questions|] == c;
    MistakesPrefix(questions, answers, |questions|);
  }

  lemma {:induction false} MissedCount(answers: seq<AnswerRecord>, n: nat)
    requires n <= |answers|
    ensures |MissedIndices(answers, n)| == n - CorrectCount(answers[..n])
    decreases n
  {
    if n > 0 {
      MissedCount(answers, n - 1);
      assert answers[..n][..n - 1] == answers[..n - 1];
    }
  }

  /** When every question has its answer, there are as many mistakes as
      incorrect answers. */
  lemma MistakeCountIsIncorrectCount(questions: seq<Question>, answers: seq<AnswerRecord>)
    requires |answers| == |questions|
    ensures |Mistakes(questions, answers)| == |questions| - CorrectCount(answers)
  {
    MistakesAreMissedQuestions(questions, answers);
    MissedCount(answers, |answers|);
    assert answers[..|answers|] == answers;
  }
}
