/** `components/QuizCard.tsx`: one question of the dashboard app's game. Its
    own answer check is case-insensitive but does not trim; the fill-in box
    submits trimmed text; each option's highlight is decided by a chain of
    reassignments; clicks are ignored while the card is disabled. */
module QuizCard {
  import opened Common
  import opened Text
  import opened QuizTypes
  import opened Scoring

  /** `userAnswer?.toLowerCase() === question.answer.toLowerCase()`: no answer
      is never correct, and white space counts. */
  predicate CardIsCorrect(userAnswer: Option<string>, expected: string) {
    userAnswer.Some? && Lower(userAnswer.value) == Lower(expected)
  }

  /** The card's check is stricter than the trimmed check of the other
      screens: whatever it accepts they accept. */
  lemma CardCheckIsStricter(given: string, expected: string)
    requires CardIsCorrect(Some(given), expected)
    ensures IsCorrectAnswer(given, expected)
  {
  }

  /** But not the other way round: the padded `" Paris "` passes the trimmed
      check and fails the card's; case still does not matter. */
  lemma CardCheckCountsPadding()
    ensures IsCorrectAnswer(" Paris ", "Paris") && !CardIsCorrect(Some(" Paris "), "Paris")
  {
    PaddedParisIsCorrect();
    assert |Lower(" Paris ")| != |Lower("Paris")|;
  }

  lemma CardCheckIgnoresCase()
    ensures CardIsCorrect(Some("PARIS"), "paris")
  {
    var u, l := Lower("PARIS"), Lower("paris");
    assert u[0] == l[0] && u[1] == l[1] && u[2] == l[2] && u[3] == l[3] && u[4] == l[4];
  }

  /** `handleSubmitFIB`: the trimmed text, and nothing for blank input. */
  function FibSubmission(textInput: string): (r: Option<string>)
    ensures r.None? <==> AllWhitespace(textInput)
    ensures r.Some? ==> r.value == Trim(textInput) && r.value != "" &&
                        !IsWhitespace(r.value[0]) && !IsWhitespace(r.value[|r.value| - 1])
  {
    BlankIffAllWhitespace(textInput);
    var t := Trim(textInput);
    if t == [] then None
    else
      TrimEnds(textInput);
      Some(t)
  }

  /** What a submitted fill-in answer is judged as: padding never matters,
      because it is trimmed away first. */
  lemma FibSubmissionIgnoresPadding(a: string, s: string, b: string)
    requires AllWhitespace(a) && AllWhitespace(b) && !AllWhitespace(s)
    ensures FibSubmission(a + s + b) == FibSubmission(s)
  {
    BlankIffAllWhitespace(s);
    PaddedNotBlank(a, s, b);
    BlankIffAllWhitespace(a + s + b);
    TrimPadded(a, s, b);
  }

  /** The buttons shown: an MCQ question's own options (none when it has
      none), always `True` and `False` for a true/false question, none for a
      fill-in question. */
  function ShownOptions(q: QuizQuestion): (opts: seq<string>)
    ensures q.kind == TF ==> opts == ["True", "False"]
    ensures q.kind == MCQ && q.options.Some? ==> opts == q.options.value
    ensures q.kind == FIB || (q.kind == MCQ && q.options.None?) ==> opts == []
  {
    match q.kind
    case MCQ => if q.options.Some? then q.options.value else []
    case TF => ["True", "False"]
    case FIB => []
  }

  /** A true/false question's buttons do not depend on its options. */
  lemma TrueFalseIgnoresOptions(q: QuizQuestion, opts: Option<seq<string>>)
    requires q.kind == TF
    ensures ShownOptions(q.(options := opts)) == ShownOptions(q) == ["True", "False"]
  {
  }

  /** The highlight an option button gets. */
  datatype Highlight = Idle | Right | Wrong | Dimmed | Chosen

  /** `stateClass`, reassigned from its default: with the result shown the
      actual answer first, then a selected option of a wrong answer, then
      dimming; without it only an MCQ option that is selected is marked (the
      true/false buttons have no such branch). */
  method StateClass(kind: QuestionType, option: string, userAnswer: Option<string>, answer: string, showResult: bool)
    returns (h: Highlight)
    requires kind == MCQ || kind == TF
    ensures var isSelected := userAnswer == Some(option);
            var isActual := option == answer;
            var isCorrect := CardIsCorrect(userAnswer, answer);
            (showResult && isActual ==> h == Right) &&
            (showResult && !isActual && isSelected && !isCorrect ==> h == Wrong) &&
            (showResult && !isActual && !(isSelected && !isCorrect) ==> h == Dimmed) &&
            (!showResult && kind == MCQ && isSelected ==> h == Chosen) &&
            (!showResult && !(kind == MCQ && isSelected) ==> h == Idle)
    ensures h == Wrong ==> showResult && userAnswer == Some(option) && option != answer
    ensures h == Right <==> showResult && option == answer
  {
    var isSelected := userAnswer == Some(option);
    var isActual := option == answer;
    var isCorrect := CardIsCorrect(userAnswer, answer);
    h := Idle;
    if showResult {
      if isActual {
        h := Right;
      } else if isSelected && !isCorrect {
        h := Wrong;
      } else {
        h := Dimmed;
      }
    } else if kind == MCQ && isSelected {
      h := Chosen;
    }
  }

  /** An option click: `!isDisabled && onAnswer(option)`. */
  function OptionClick(isDisabled: bool, option: string): (answered: Option<string>)
    ensures answered.Some? <==> !isDisabled
    ensures answered.Some? ==> answered.value == option
  {
    if isDisabled then None else Some(option)
  }
}
