/** The data model shared by the quiz variants: the records of `types.ts`, the
    question-count bounds of `constants.ts`, and the question and answer records
    that the single-file apps and the `useQuizStore` store declare for themselves. */
module QuizTypes {
  import opened Common

  /** `QuestionType`: multiple choice, true/false, fill in the blank. */
  datatype QuestionType = MCQ | TF | FIB

  /** `QuizDifficulty` of `types.ts`. */
  datatype QuizDifficulty = EASY | MEDIUM | HARD | PHD

  /** `QuizType` of `types.ts` ('MCQ', 'TF', 'MIXED'). */
  datatype QuizType = McqQuiz | TrueFalseQuiz | MixedQuiz

  /** `QuizQuestion` of `types.ts`: `options` is optional. */
  datatype QuizQuestion = QuizQuestion(
    id: int,
    kind: QuestionType,
    question: string,
    options: Option<seq<string>>,
    answer: string,
    explanation: string)

  /** `UserAnswer` of `types.ts`. The elapsed time is carried along but never
      computed with here (it is a floating-point number in the source). */
  datatype UserAnswer = UserAnswer(
    questionId: int,
    questionText: string,
    selectedOption: string,
    correctAnswer: string,
    isCorrect: bool,
    timeTaken: int)

  /** `QuizConfig` of `types.ts`; the optional fields are `Option`s. */
  datatype QuizConfig = QuizConfig(
    topic: string,
    content: string,
    questionCount: int,
    selectedTypes: Option<seq<QuestionType>>,
    difficulty: Option<QuizDifficulty>,
    quizType: Option<QuizType>,
    timerSeconds: Option<int>)

  /** `SavedQuiz` of `types.ts`: one entry of the quiz history. */
  datatype SavedQuiz = SavedQuiz(id: string, topic: string, date: string, score: int, totalQuestions: int)

  /** The question record the generation service returns and `useQuizStore`
      stores (`text` instead of `question`, `options` always present). */
  datatype Question = Question(
    id: int,
    kind: QuestionType,
    text: string,
    options: seq<string>,
    answer: string,
    explanation: string)

  /** The answer record of the single-file apps: `{questionId, answer, isCorrect}`. */
  datatype AnswerRecord = AnswerRecord(questionId: int, answer: string, isCorrect: bool)

  /** The answer record of `useQuizStore`. */
  datatype StoreAnswer = StoreAnswer(
    questionId: int,
    questionText: string,
    userValue: string,
    correctValue: string,
    isCorrect: bool)

  /** A missed question as the single-file app hands it to the study-guide service. */
  datatype Mistake = Mistake(questionText: string, selectedOption: string, correctAnswer: string)

  /** A missed question as the feedback service receives it: `{question, user, correct}`. */
  datatype CriticismItem = CriticismItem(question: string, user: string, correct: string)

  /** A file picked by the user: only its name and MIME type are inspected. */
  datatype FileRef = FileRef(name: string, mime: string)

  const DEFAULT_QUESTION_COUNT: int := 10
  const MIN_QUESTIONS: int := 5
  const MAX_QUESTIONS: int := 20

  function ToCriticism(m: Mistake): CriticismItem {
    CriticismItem(m.questionText, m.selectedOption, m.correctAnswer)
  }

  /** `answers.map(...)` from mistakes to feedback items. */
  function ToCriticisms(ms: seq<Mistake>): seq<CriticismItem> {
    seq(|ms|, i requires 0 <= i < |ms| => ToCriticism(ms[i]))
  }
}
