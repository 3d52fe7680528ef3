/** `components/QuizSetup.tsx`: the store-driven setup form. Its type toggle
    and its topic fallbacks are the same expressions `App.tsx` and
    `src/App.tsx` use, and those modules import them from here. */
module QuizSetup {
  import opened Common
  import opened Seqs
  import opened QuizTypes
  import opened PdfText
  import opened GeminiService
  import UseQuizStore

  /** `prev.includes(t) ? prev.filter(x => x !== t) : [...prev, t]`. */
  function Toggle(types: seq<QuestionType>, t: QuestionType): (r: seq<QuestionType>)
    ensures t in r <==> t !in types
    ensures forall u :: u != t ==> (u in r <==> u in types)
    ensures t !in types ==> r == types + [t]
    ensures t in types ==> |r| < |types|
  {
    if t in types then
      var p := (x: QuestionType) => x != t;
      FilterMembers(types, p);
      CountExtremes(types, p);
      Filter(types, p)
    else types + [t]
  }

  /** Toggling a type twice restores which types are selected. */
  lemma ToggleTwiceMembership(types: seq<QuestionType>, t: QuestionType)
    ensures forall u :: u in Toggle(Toggle(types, t), t) <==> u in types
  {
  }

  /** Toggling an unselected type twice restores the list exactly. */
  lemma ToggleTwiceRestoresAbsent(types: seq<QuestionType>, t: QuestionType)
    requires t !in types
    ensures Toggle(Toggle(types, t), t) == types
  {
    var p := (x: QuestionType) => x != t;
    FilterAppend(types, [t], p);
    FilterAll(types, p);
    assert Filter([t], p) == [] by {
      assert [t][..0] == [];
    }
  }

  /** Toggling a selected type twice moves it to the end: `[MCQ, TF]` becomes
      `[TF, MCQ]`. */
  lemma ToggleTwiceReorders()
    ensures Toggle(Toggle([MCQ, TF], MCQ), MCQ) == [TF, MCQ]
  {
    var p := (x: QuestionType) => x != MCQ;
    assert [MCQ, TF][..1] == [MCQ];
    assert [MCQ][..0] == [];
    assert Filter([MCQ, TF], p) == [TF];
  }

  /** `topic || file?.name || fallback`: the first non-empty of the three. */
  function TitleOr(topic: string, file: Option<FileRef>, fallback: string): (r: string)
    ensures topic != "" ==> r == topic
    ensures topic == "" && file.Some? && file.value.name != "" ==> r == file.value.name
    ensures topic == "" && (file.None? || file.value.name == "") ==> r == fallback
    ensures fallback != "" ==> r != ""
  {
    if topic != "" then topic
    else if file.Some? && file.value.name != "" then file.value.name
    else fallback
  }

  /** The title sent with the generation request. */
  function GenerationTitle(topic: string, file: Option<FileRef>): string {
    TitleOr(topic, file, "General")
  }

  /** The title the store keeps for the session. */
  function SessionTitle(topic: string, file: Option<FileRef>): string {
    TitleOr(topic, file, "Quiz")
  }

  /** The two titles only differ in their last fallback. */
  lemma TitlesDifferOnlyWithoutTopicOrName(topic: string, file: Option<FileRef>)
    ensures GenerationTitle(topic, file) != SessionTitle(topic, file) <==>
            topic == "" && (file.None? || file.value.name == "")
  {
  }

  datatype Mode = TopicMode | FileMode

  const GENERATION_FAILED: string := "Failed to generate quiz"

  class QuizSetupState {
    var mode: Mode
    var topic: string
    var file: Option<FileRef>
    var loading: bool
    var types: seq<QuestionType>

    constructor ()
      ensures mode == TopicMode && topic == "" && file.None? && !loading && types == [MCQ]
    {
      mode, topic, file, loading, types := TopicMode, "", None, false, [MCQ];
    }

    /** The start button's `disabled` expression. */
    predicate StartDisabled()
      reads this
    {
      loading || (topic == "" && file.None?)
    }

    /** The two mode buttons: only the mode changes, topic and file are kept. */
    method SetMode(m: Mode)
      modifies this
      ensures mode == m && topic == old(topic) && file == old(file) && types == old(types) && loading == old(loading)
    {
      mode := m;
    }

    /** The topic text area, shown in topic mode. */
    method SetTopic(t: string)
      requires mode == TopicMode
      modifies this
      ensures topic == t && mode == old(mode) && file == old(file) && types == old(types) && loading == old(loading)
    {
      topic := t;
    }

    /** The file input, shown in file mode: a pick replaces the file, an empty
        pick keeps it. */
    method PickFile(picked: Option<FileRef>)
      requires mode == FileMode
      modifies this
      ensures file == if picked.Some? then picked else old(file)
      ensures mode == old(mode) && topic == old(topic) && types == old(types) && loading == old(loading)
    {
      if picked.Some? {
        file := picked;
      }
    }

    /** `toggleType`. */
    method ToggleType(t: QuestionType)
      modifies this
      ensures types == Toggle(old(types), t)
      ensures mode == old(mode) && topic == old(topic) && file == old(file) && loading == old(loading)
    {
      types := Toggle(types, t);
    }

    /** `handleStart`, with the awaited calls collapsed into one step: the
        PDF's pages and the model's reply are parameters. Nothing happens
        without a selected type. Otherwise the content is the topic unless a
        file is chosen in file mode; the request goes out with the default
        difficulty and count; a quiz that arrives is started in the store,
        and any failure shows an alert and leaves the store alone. */
    method HandleStart(doc: PdfDocument, reply: GenerationReply, store: UseQuizStore.Store)
      returns (request: Option<QuizRequest>, alert: Option<string>)
      requires !StartDisabled()
      modifies this, store
      ensures mode == old(mode) && topic == old(topic) && file == old(file) && types == old(types)
      ensures old(types) == [] ==> request.None? && alert.None? && loading == old(loading) && store.State() == old(store.State())
      ensures old(types) != [] ==> !loading
      ensures old(types) != [] && mode == FileMode && file.Some? && CappedText(doc).Err? ==>
                request.None? && alert == Some(GENERATION_FAILED) && store.State() == old(store.State())
      ensures old(types) != [] && !(mode == FileMode && file.Some? && CappedText(doc).Err?) ==>
                var content := if mode == FileMode && file.Some? then CappedText(doc).value else topic;
                request == Some(BuildQuizRequest(GenerationTitle(topic, file), content, types, DEFAULT_DIFFICULTY, DEFAULT_COUNT)) &&
                match GenerateQuiz(reply, DEFAULT_COUNT)
                case Ok(qs) => alert.None? && store.State() == UseQuizStore.StoreState(UseQuizStore.QuizView, SessionTitle(topic, file), qs, [], None)
                case Err(_) => alert == Some(GENERATION_FAILED) && store.State() == old(store.State())
    {
      request, alert := None, None;
      if |types| == 0 {
        return;
      }
      loading := true;
      var content := topic;
      if mode == FileMode && file.Some? {
        var extracted := ExtractTextFromPdf(doc);
        if extracted.Err? {
          alert := Some(GENERATION_FAILED);
          loading := false;
          return;
        }
        content := extracted.value;
      }
      request := Some(BuildQuizRequest(GenerationTitle(topic, file), content, types, DEFAULT_DIFFICULTY, DEFAULT_COUNT));
      var generated := GenerateQuiz(reply, DEFAULT_COUNT);
      if generated.Ok? {
        store.StartQuiz(SessionTitle(topic, file), generated.value);
      } else {
        alert := Some(GENERATION_FAILED);
      }
      loading := false;
    }
  }
}
