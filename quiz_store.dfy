/** `store/quizStore.ts`: the zustand store over the records of `types.ts`,
    as an object whose actions replace its fields. */
module QuizStore {
  import opened Common
  import opened QuizTypes

  datatype ViewState = Hero | Setup | Quiz | Results

  /** A snapshot of every field of the store. */
  datatype StoreState = StoreState(
    view: ViewState,
    config: Option<QuizConfig>,
    questions: seq<QuizQuestion>,
    userAnswers: seq<UserAnswer>,
    aiFeedback: Option<string>)

  /** The state the store is created with and `reset` returns to. */
  const INITIAL: StoreState := StoreState(Hero, None, [], [], None)

  class Store {
    var view: ViewState
    var config: Option<QuizConfig>
    var questions: seq<QuizQuestion>
    var userAnswers: seq<UserAnswer>
    var aiFeedback: Option<string>

    function State(): StoreState
      reads this
    {
      StoreState(view, config, questions, userAnswers, aiFeedback)
    }

    constructor ()
      ensures State() == INITIAL
    {
      view, config, questions, userAnswers, aiFeedback := Hero, None, [], [], None;
    }

    /** `setView`: only the view changes. */
    method SetView(v: ViewState)
      modifies this
      ensures State() == old(State()).(view := v)
    {
      view := v;
    }

    /** `startSetup`: the setup view, and nothing else changes. */
    method StartSetup()
      modifies this
      ensures State() == old(State()).(view := Setup)
    {
      view := Setup;
    }

    /** `startQuiz`: config and questions stored, answers and feedback cleared,
        the quiz view shown. */
    method StartQuiz(c: QuizConfig, qs: seq<QuizQuestion>)
      modifies this
      ensures State() == StoreState(Quiz, Some(c), qs, [], None)
    {
      view, config, questions, userAnswers, aiFeedback := Quiz, Some(c), qs, [], None;
    }

    /** `submitAnswer`: exactly one answer appended; nothing else changes. */
    method SubmitAnswer(a: UserAnswer)
      modifies this
      ensures State() == old(State()).(userAnswers := old(userAnswers) + [a])
      ensures |userAnswers| == |old(userAnswers)| + 1 && userAnswers[..|old(userAnswers)|] == old(userAnswers)
    {
      userAnswers := userAnswers + [a];
    }

    /** `setAiFeedback`: only the feedback changes. */
    method SetAiFeedback(f: string)
      modifies this
      ensures State() == old(State()).(aiFeedback := Some(f))
    {
      aiFeedback := Some(f);
    }

    /** `reset`: back to the initial state whatever the state was. */
    method Reset()
      modifies this
      ensures State() == INITIAL
    {
      view, config, questions, userAnswers, aiFeedback := Hero, None, [], [], None;
    }
  }
}
