/** `services/geminiService.ts`: the plumbing around the model calls. The PDF
    library and the Gemini SDK are outside the model; what they return is a
    parameter (`PdfDocument`, `GenerationReply`, `TextReply`). The prompts are
    text sent to the model and play no part here. */
module GeminiService {
  import opened Common
  import opened Text
  import opened QuizTypes
  import opened PdfText

  /** At most this many pages of a PDF are read ("to prevent token limits"). */
  const MAX_PDF_PAGES: nat := 15
  /** At most this many characters of the source material are sent. */
  const CONTENT_LIMIT: nat := 30000

  const UNREADABLE_PDF: string := "Unable to read PDF. Please ensure it contains selectable text."
  const AI_UNAVAILABLE: string := "AI Service unavailable. Please try again."
  const CRITICISM_EMPTY: string := "Performance analysis complete."
  const CRITICISM_FAILED: string := "Great job completing the quiz!"
  const MASTERY_GUIDE: string := "## Mastery Achieved! \n\nYou answered everything correctly. Great job demonstrating your understanding of this topic."
  const GUIDE_EMPTY: string := "Study guide unavailable."
  const GUIDE_FAILED: string := "Could not generate study guide."

  /** The outcome `extractTextFromPDF` promises: the first fifteen pages read
      in order, and every failure replaced by one fixed message. */
  function CappedText(doc: PdfDocument): (r: Result<string>)
    ensures r.Err? ==> r.message == UNREADABLE_PDF
    ensures r.Ok? ==> doc.Loaded? && Assemble(Take(doc.pages, MAX_PDF_PAGES)) == r
  {
    match doc
    case Unreadable(_) => Err(UNREADABLE_PDF)
    case Loaded(pages) =>
      var t := Assemble(Take(pages, MAX_PDF_PAGES));
      if t.Ok? then t else Err(UNREADABLE_PDF)
  }

  /** `extractTextFromPDF`: the loop over pages `1..min(numPages, 15)`. */
  method ExtractTextFromPdf(doc: PdfDocument) returns (r: Result<string>)
    ensures r == CappedText(doc)
  {
    match doc
    case Unreadable(_) =>
      r := Err(UNREADABLE_PDF);
    case Loaded(pages) =>
      var maxPages := if |pages| < MAX_PDF_PAGES then |pages| else MAX_PDF_PAGES;
      ghost var read := pages[..maxPages];
      assert read == Take(pages, MAX_PDF_PAGES);
      var fullText := "";
      var i := 0;
      while i < maxPages
        invariant 0 <= i <= maxPages
        invariant Assemble(read[..i]) == Ok(fullText)
      {
        assert read[..i + 1][..i] == read[..i];
        assert read[i] == pages[i];
        match pages[i]
        case PageError(_) =>
          AssembleErrSticks(read, i + 1);
          return Err(UNREADABLE_PDF);
        case PageText(items) =>
          fullText := fullText + PageLine(items);
        i := i + 1;
      }
      assert read[..i] == read;
      r := Ok(fullText);
  }

  /** Pages after the fifteenth are never looked at, not even when they would
      fail to read. */
  lemma CapIgnoresLaterPages(pages: seq<PageContent>, more: seq<PageContent>)
    requires |pages| >= MAX_PDF_PAGES
    ensures CappedText(Loaded(pages + more)) == CappedText(Loaded(pages))
  {
    assert Take(pages + more, MAX_PDF_PAGES) == Take(pages, MAX_PDF_PAGES);
  }

  /** A readable document yields a prefix of its full text, and all of it when
      it has at most fifteen pages. */
  lemma CappedTextIsPrefix(doc: PdfDocument)
    requires FullText(doc).Ok?
    ensures CappedText(doc).Ok?
    ensures CappedText(doc).value <= FullText(doc).value
    ensures |doc.pages| <= MAX_PDF_PAGES ==> CappedText(doc) == FullText(doc)
  {
    var pages := doc.pages;
    var k := if |pages| < MAX_PDF_PAGES then |pages| else MAX_PDF_PAGES;
    assert Take(pages, MAX_PDF_PAGES) == pages[..k];
    AssemblePrefix(pages, k);
    if |pages| <= MAX_PDF_PAGES {
      assert pages[..k] == pages;
    }
  }

  /** A sixteenth page that cannot be read does not make extraction fail. */
  lemma SixteenthPageIgnored(items: seq<string>)
    ensures CappedText(Loaded(seq(15, _ => PageText(items)) + [PageError("bad page")])).Ok?
  {
    var first := seq(15, _ => PageText(items));
    CapIgnoresLaterPages(first, [PageError("bad page")]);
    assert Take(first, MAX_PDF_PAGES) == first;
    assert forall i :: 0 <= i < |first| ==> first[i].PageText?;
  }

  /** `content.slice(0, 30000)`. */
  function SafeContent(content: string): (r: string)
    ensures |r| <= CONTENT_LIMIT && r <= content
    ensures |content| <= CONTENT_LIMIT ==> r == content
    ensures |content| > CONTENT_LIMIT ==> |r| == CONTENT_LIMIT
  {
    Take(content, CONTENT_LIMIT)
  }

  /** The sampling temperature in tenths: 0.7 for `'Hard'`, 0.5 otherwise. */
  function TemperatureTenths(difficulty: string): (t: nat)
    ensures t == 7 <==> difficulty == "Hard"
    ensures t == 5 <==> difficulty != "Hard"
  {
    if difficulty == "Hard" then 7 else 5
  }

  /** What is sent with a quiz generation request. */
  datatype QuizRequest = QuizRequest(
    topic: string,
    content: string,
    types: seq<QuestionType>,
    difficulty: string,
    count: int,
    temperatureTenths: nat)

  /** The request `generateQuiz` sends for its arguments. */
  function BuildQuizRequest(topic: string, content: string, types: seq<QuestionType>, difficulty: string, count: int)
    : (q: QuizRequest)
    ensures q.content <= content && |q.content| <= CONTENT_LIMIT
    ensures |content| <= CONTENT_LIMIT ==> q.content == content
    ensures q.topic == topic && q.types == types && q.difficulty == difficulty && q.count == count
    ensures q.temperatureTenths == 7 <==> difficulty == "Hard"
  {
    QuizRequest(topic, SafeContent(content), types, difficulty, count, TemperatureTenths(difficulty))
  }

  /** The default arguments of `generateQuiz`. */
  const DEFAULT_DIFFICULTY: string := "Medium"
  const DEFAULT_COUNT: int := 5

  /** What the model call produced: a failed call, no text (`undefined` or
      empty), or text that parses as a question list (`Some`) or does not
      (`None`: invalid JSON or not an array). */
  datatype GenerationReply = CallFailed | NoText | JsonText(parsed: Option<seq<Question>>)

  /** JavaScript's `s.slice(0, end)`: a negative end counts from the back. */
  function SliceTo<T>(s: seq<T>, end: int): (r: seq<T>)
    ensures r <= s
    ensures end >= 0 ==> |r| == if end <= |s| then end else |s|
    ensures end < 0 ==> |r| == if |s| + end >= 0 then |s| + end else 0
  {
    if end >= 0 then Take(s, end)
    else if |s| + end >= 0 then s[..|s| + end]
    else []
  }

  /** `generateQuiz` after the call: missing text reads as `"[]"`, the parsed
      list is cut to `count`, and any failure becomes one fixed message. */
  function GenerateQuiz(reply: GenerationReply, count: int): (r: Result<seq<Question>>)
    ensures r.Err? <==> reply.CallFailed? || (reply.JsonText? && reply.parsed.None?)
    ensures r.Err? ==> r.message == AI_UNAVAILABLE
    ensures reply.NoText? ==> r == Ok([])
    ensures r.Ok? && count >= 0 ==> |r.value| <= count
    ensures reply.JsonText? && reply.parsed.Some? ==> r.Ok? && r.value <= reply.parsed.value
    ensures reply.JsonText? && reply.parsed.Some? && 0 <= count <= |reply.parsed.value| ==> |r.value| == count
  {
    match reply
    case CallFailed => Err(AI_UNAVAILABLE)
    case NoText => Ok(SliceTo([], count))
    case JsonText(parsed) =>
      if parsed.None? then Err(AI_UNAVAILABLE) else Ok(SliceTo(parsed.value, count))
  }

  /** What a free-text model call produced: a failure, or a reply whose text
      may be missing (`None`) or empty. */
  datatype TextReply = Failed | Replied(text: Option<string>)

  /** `result.text || fallback`: the text, unless it is missing or empty. */
  function TextOr(reply: TextReply, fallback: string): (r: string)
    requires reply.Replied?
    ensures reply.text.Some? && reply.text.value != "" ==> r == reply.text.value
    ensures reply.text.None? || reply.text.value == "" ==> r == fallback
  {
    if reply.text.Some? && reply.text.value != "" then reply.text.value else fallback
  }

  /** `generateCriticism`: the model's text, a fixed text when it is empty and
      another when the call fails; never an empty string. */
  function Criticism(reply: TextReply): (r: string)
    ensures r != []
    ensures reply.Failed? ==> r == CRITICISM_FAILED
    ensures reply.Replied? && (reply.text.None? || reply.text.value == "") ==> r == CRITICISM_EMPTY
    ensures reply.Replied? && reply.text.Some? && reply.text.value != "" ==> r == reply.text.value
  {
    if reply.Failed? then CRITICISM_FAILED else TextOr(reply, CRITICISM_EMPTY)
  }

  /** `generateStudyGuide`: with no mistakes the canned mastery text, whatever
      the model would have said; otherwise as for `generateCriticism` with the
      study-guide fallbacks. */
  function StudyGuide<M>(mistakes: seq<M>, reply: TextReply): (r: string)
    ensures r != []
    ensures |mistakes| == 0 ==> r == MASTERY_GUIDE
    ensures |mistakes| > 0 && reply.Failed? ==> r == GUIDE_FAILED
    ensures |mistakes| > 0 && reply.Replied? && (reply.text.None? || reply.text.value == "") ==> r == GUIDE_EMPTY
    ensures |mistakes| > 0 && reply.Replied? && reply.text.Some? && reply.text.value != "" ==> r == reply.text.value
  {
    if |mistakes| == 0 then MASTERY_GUIDE
    else if reply.Failed? then GUIDE_FAILED
    else TextOr(reply, GUIDE_EMPTY)
  }
}
