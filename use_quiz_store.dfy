/** `store/useQuizStore.ts`: the zustand store the `QuizSetup` and `QuizGame`
    components share, as an object whose actions replace its fields. */
module UseQuizStore {
  import opened Common
  import opened QuizTypes

  datatype View = Intro | SetupView | QuizView | ResultsView

  /** A snapshot of every field of the store. */
  datatype StoreState = StoreState(
    view: View,
    topic: string,
    questions: seq<Question>,
    userAnswers: seq<StoreAnswer>,
    aiRoast: Option<string>)

  /** The state the store is created with and `reset` returns to. */
  const INITIAL: StoreState := StoreState(Intro, "", [], [], None)

  class Store {
    var view: View
    var topic: string
    var questions: seq<Question>
    var userAnswers: seq<StoreAnswer>
    var aiRoast: Option<string>

    function State(): StoreState
      reads this
    {
      StoreState(view, topic, questions, userAnswers, aiRoast)
    }

    constructor ()
      ensures State() == INITIAL
    {
      view, topic, questions, userAnswers, aiRoast := Intro, "", [], [], None;
    }

    /** `setView`: only the view changes. */
    method SetView(v: View)
      modifies this
      ensures State() == old(State()).(view := v)
    {
      view := v;
    }

    /** `startQuiz`: a new quiz with no answers and no roast, in the quiz view. */
    method StartQuiz(t: string, qs: seq<Question>)
      modifies this
      ensures State() == StoreState(QuizView, t, qs, [], None)
    {
      view, topic, questions, userAnswers, aiRoast := QuizView, t, qs, [], None;
    }

    /** `addAnswer`: exactly one answer appended at the end; nothing else changes. */
    method AddAnswer(a: StoreAnswer)
      modifies this
      ensures State() == old(State()).(userAnswers := old(userAnswers) + [a])
      ensures |userAnswers| == |old(userAnswers)| + 1 && userAnswers[..|old(userAnswers)|] == old(userAnswers)
    {
      userAnswers := userAnswers + [a];
    }

    /** `setRoast`: only the roast changes. */
    method SetRoast(r: string)
      modifies this
      ensures State() == old(State()).(aiRoast := Some(r))
    {
      aiRoast := Some(r);
    }

    /** `reset`: back to the initial state whatever the state was, so a second
        reset changes nothing. */
    method Reset()
      modifies this
      ensures State() == INITIAL
    {
      view, topic, questions, userAnswers, aiRoast := Intro, "", [], [], None;
    }
  }
}
