/** `components/Dashboard.tsx`: the statistics over the saved quiz history
    and the colour bands of the scores. The colours are named by band; the
    class strings are presentation. */
module Dashboard {
  import opened QuizTypes
  import opened Scoring

  /** `savedQuizzes.reduce((acc, q) => acc + q.score, 0)`. */
  function ScoreSum(quizzes: seq<SavedQuiz>): int {
    if |quizzes| == 0 then 0 else ScoreSum(quizzes[..|quizzes| - 1]) + quizzes[|quizzes| - 1].score
  }

  predicate ScoresInRange(quizzes: seq<SavedQuiz>) {
    forall i :: 0 <= i < |quizzes| ==> 0 <= quizzes[i].score <= 100
  }

  /** Scores between 0 and 100 add up to at most 100 per quiz. */
  lemma {:induction false} ScoreSumBounds(quizzes: seq<SavedQuiz>)
    requires ScoresInRange(quizzes)
    ensures 0 <= ScoreSum(quizzes) <= 100 * |quizzes|
    decreases |quizzes|
  {
    if |quizzes| > 0 {
      ScoreSumBounds(quizzes[..|quizzes| - 1]);
    }
  }

  /** A history of equal scores sums to the score times the count. */
  lemma {:induction false} ScoreSumConstant(quizzes: seq<SavedQuiz>, s: int)
    requires forall i :: 0 <= i < |quizzes| ==> quizzes[i].score == s
    ensures ScoreSum(quizzes) == |quizzes| * s
    decreases |quizzes|
  {
    if |quizzes| > 0 {
      ScoreSumConstant(quizzes[..|quizzes| - 1], s);
      assert |quizzes| * s == (|quizzes| - 1) * s + s;
    }
  }

  /** `avgScore`: the rounded mean score over `totalQuizzes`, the length of
      the history, and 0 for an empty history. */
  function AverageScore(quizzes: seq<SavedQuiz>): (avg: int)
    ensures |quizzes| == 0 ==> avg == 0
    ensures |quizzes| > 0 ==>
              2 * |quizzes| * avg <= 2 * ScoreSum(quizzes) + |quizzes| < 2 * |quizzes| * avg + 2 * |quizzes|
  {
    if |quizzes| > 0 then
      RoundDivBracket(ScoreSum(quizzes), |quizzes|);
      RoundDiv(ScoreSum(quizzes), |quizzes|)
    else 0
  }

  /** The average of scores between 0 and 100 is itself between 0 and 100. */
  lemma AverageScoreBounds(quizzes: seq<SavedQuiz>)
    requires ScoresInRange(quizzes)
    ensures 0 <= AverageScore(quizzes) <= 100
  {
    var n := |quizzes|;
    if n > 0 {
      var avg := AverageScore(quizzes);
      ScoreSumBounds(quizzes);
      if avg > 100 {
        MulStrict(2 * n, 100, avg);
      } else if avg < 0 {
        MulStrict(2 * n, avg, 0);
      }
    }
  }

  /** A history whose scores are all equal averages to that score. */
  lemma AverageOfEqualScores(quizzes: seq<SavedQuiz>, s: int)
    requires |quizzes| > 0
    requires forall i :: 0 <= i < |quizzes| ==> quizzes[i].score == s
    ensures AverageScore(quizzes) == s
  {
    var n := |quizzes|;
    ScoreSumConstant(quizzes, s);
    assert 2 * n * s == 2 * (n * s);
    RoundDivUnique(ScoreSum(quizzes), n, s);
  }

  /** The colour bands of the page. */
  datatype Band = Green | Yellow | Red | Grey

  /** The band of one saved quiz's score. */
  function ScoreBand(score: int): (b: Band)
    ensures b == Green <==> score >= 80
    ensures b == Yellow <==> 50 <= score < 80
    ensures b == Red <==> score < 50
  {
    if score >= 80 then Green else if score >= 50 then Yellow else Red
  }

  /** The band of the average score. */
  function AverageBand(avg: int): (b: Band)
    ensures b == Green <==> avg >= 70
    ensures b == Yellow <==> 40 <= avg < 70
    ensures b == Grey <==> avg < 40
  {
    if avg >= 70 then Green else if avg >= 40 then Yellow else Grey
  }

  function Rank(b: Band): nat {
    match b
    case Red => 0
    case Grey => 0
    case Yellow => 1
    case Green => 2
  }

  /** A higher score never gets a lower band, for either scale; an average
      may be green where the same single score is only yellow. */
  lemma BandsMonotone(s1: int, s2: int)
    requires s1 <= s2
    ensures Rank(ScoreBand(s1)) <= Rank(ScoreBand(s2))
    ensures Rank(AverageBand(s1)) <= Rank(AverageBand(s2))
    ensures ScoreBand(75) == Yellow && AverageBand(75) == Green
  {
  }
}
