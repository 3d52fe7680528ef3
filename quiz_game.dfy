/** `components/QuizGame.tsx`: the question-by-question game over the
    `useQuizStore` store. The 1.5 s reveal delay (`reveal` in the component) is collapsed: confirming an
    answer records it and advances (or finishes) in one step. */
module QuizGame {
  import opened QuizTypes
  import opened Scoring
  import opened UseQuizStore

  class QuizGameState {
    const store: Store
    var index: nat
    var selected: string
    var revealing: bool

    /** While the quiz view is shown, the answers recorded are exactly those of
        the questions before `index`; once the results view is shown, every
        question has its answer. */
    ghost predicate Valid()
      reads this, store
    {
      0 < |store.questions| &&
      (store.view == QuizView ==> index < |store.questions| && |store.userAnswers| == index && !revealing) &&
      (store.view == ResultsView ==> index == |store.questions| - 1 && |store.userAnswers| == |store.questions|)
    }

    /** The component is mounted on a store that has just started a quiz; with
        no questions its first render fails on `q.id`. */
    constructor (s: Store)
      requires s.view == QuizView && |s.questions| > 0 && s.userAnswers == []
      ensures Valid() && store == s && index == 0 && selected == "" && !revealing
    {
      store := s;
      index, selected, revealing := 0, "", false;
    }

    /** The confirm button is enabled for a non-empty selection when nothing is
        being revealed; a blank fill-in answer of spaces is allowed. */
    predicate ConfirmEnabled()
      reads this
    {
      selected != "" && !revealing
    }

    /** An MCQ or true/false option click: ignored while revealing. */
    method SelectOption(opt: string)
      modifies this
      ensures selected == if old(revealing) then old(selected) else opt
      ensures index == old(index) && revealing == old(revealing)
    {
      if !revealing {
        selected := opt;
      }
    }

    /** The fill-in input: it is not guarded by `revealing`. */
    method TypeAnswer(value: string)
      modifies this
      ensures selected == value && index == old(index) && revealing == old(revealing)
    {
      selected := value;
    }

    /** `handleSubmit`: judge the selection, record exactly one answer carrying
        the question's id, text and answer, then move to the next question
        (clearing the selection) or show the results. */
    method HandleSubmit()
      requires Valid() && store.view == QuizView && ConfirmEnabled()
      modifies this, store
      ensures Valid()
      ensures var q := old(store.questions[index]);
              store.userAnswers == old(store.userAnswers) +
                [StoreAnswer(q.id, q.text, old(selected), q.answer, IsCorrectAnswer(old(selected), q.answer))]
      ensures store.questions == old(store.questions) && store.topic == old(store.topic) && store.aiRoast == old(store.aiRoast)
      ensures old(index) < |store.questions| - 1 ==>
                store.view == QuizView && index == old(index) + 1 && selected == "" && !revealing
      ensures old(index) == |store.questions| - 1 ==>
                store.view == ResultsView && index == old(index) && selected == old(selected) && revealing
    {
      revealing := true;
      var q := store.questions[index];
      var isCorrect := IsCorrectAnswer(selected, q.answer);
      store.AddAnswer(StoreAnswer(q.id, q.text, selected, q.answer, isCorrect));
      if index < |store.questions| - 1 {
        index := index + 1;
        selected := "";
        revealing := false;
      } else {
        store.SetView(ResultsView);
      }
    }
  }
}
