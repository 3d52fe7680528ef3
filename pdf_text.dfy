/** The text a PDF yields, as both PDF readers (`services/geminiService.ts` and
    `services/fileService.ts`) assemble it: each page's text items joined by a
    single space and followed by one newline, pages in order. The PDF library
    itself is outside the model: a document is the list of what each page's
    `getTextContent()` produced, or the error that loading it raised. */
module PdfText {
  import opened Common
  import opened Text

  /** What reading one page produced: its text items, or the error raised. */
  datatype PageContent = PageText(items: seq<string>) | PageError(message: string)

  /** A document that failed to load (`getDocument` rejected) or its pages. */
  datatype PdfDocument = Unreadable(message: string) | Loaded(pages: seq<PageContent>)

  /** `items.map(item => item.str).join(' ') + '\n'`. */
  function PageLine(items: seq<string>): (r: string)
    ensures |r| > 0 && r[|r| - 1] == '\n'
    ensures r[..|r| - 1] == Join(items, " ")
  {
    Join(items, " ") + "\n"
  }

  /** Reading the pages in order and appending each page's line; the first page
      that fails ends the reading with its error. */
  function Assemble(pages: seq<PageContent>): (r: Result<string>)
    ensures r.Ok? <==> forall i :: 0 <= i < |pages| ==> pages[i].PageText?
    ensures r.Err? ==> exists i :: 0 <= i < |pages| && pages[i] == PageError(r.message)
  {
    if |pages| == 0 then Ok("")
    else
      var prev := Assemble(pages[..|pages| - 1]);
      if prev.Err? then prev
      else match pages[|pages| - 1]
        case PageError(m) => Err(m)
        case PageText(items) => Ok(prev.value + PageLine(items))
  }

  /** The whole-document reading with errors propagated, as `parsePDF` does it. */
  function FullText(doc: PdfDocument): Result<string> {
    match doc
    case Unreadable(m) => Err(m)
    case Loaded(pages) => Assemble(pages)
  }

  /** Once a prefix of the pages has failed, reading further pages does not
      change the outcome: the first failing page decides the error. */
  lemma {:induction false} AssembleErrSticks(pages: seq<PageContent>, k: nat)
    requires k <= |pages| && Assemble(pages[..k]).Err?
    ensures Assemble(pages) == Assemble(pages[..k])
    decreases |pages| - k
  {
    if k < |pages| {
      assert pages[..k + 1][..k] == pages[..k];
      AssembleErrSticks(pages, k + 1);
    } else {
      assert pages[..k] == pages;
    }
  }

  /** The error reported is the one of the first page that fails. */
  lemma FirstErrorWins(pages: seq<PageContent>, k: nat)
    requires k < |pages| && pages[k].PageError?
    requires forall j :: 0 <= j < k ==> pages[j].PageText?
    ensures Assemble(pages) == Err(pages[k].message)
  {
    assert pages[..k + 1][..k] == pages[..k];
    AssembleErrSticks(pages, k + 1);
  }

  /** Reading `a + b` successfully reads `a` and then `b`. */
  lemma {:induction false} AssembleAppend(a: seq<PageContent>, b: seq<PageContent>)
    requires Assemble(a + b).Ok?
    ensures Assemble(a).Ok? && Assemble(b).Ok?
    ensures Assemble(a + b).value == Assemble(a).value + Assemble(b).value
    decreases |b|
  {
    if |b| == 0 {
      assert a + b == a;
    } else {
      var b' := b[..|b| - 1];
      assert (a + b)[..|a + b| - 1] == a + b';
      assert (a + b)[|a + b| - 1] == b[|b| - 1];
      AssembleAppend(a, b');
    }
  }

  /** The text of the first `k` pages is a prefix of the text of all pages. */
  lemma AssemblePrefix(pages: seq<PageContent>, k: nat)
    requires k <= |pages| && Assemble(pages).Ok?
    ensures Assemble(pages[..k]).Ok?
    ensures Assemble(pages[..k]).value <= Assemble(pages).value
  {
    assert pages == pages[..k] + pages[k..];
    AssembleAppend(pages[..k], pages[k..]);
  }

  /** When no text item holds a newline, the text has exactly one newline per
      page. */
  lemma {:induction false} OneNewlinePerPage(pages: seq<PageContent>)
    requires Assemble(pages).Ok?
    requires forall i, j :: 0 <= i < |pages| && 0 <= j < |pages[i].items| ==> '\n' !in pages[i].items[j]
    ensures Occurrences(Assemble(pages).value, '\n') == |pages|
    decreases |pages|
  {
    if |pages| > 0 {
      var prefix := pages[..|pages| - 1];
      var items := pages[|pages| - 1].items;
      OneNewlinePerPage(prefix);
      JoinAvoids(items, " ", '\n');
      var line := PageLine(items);
      assert line == Join(items, " ") + "\n";
      assert multiset(line)['\n'] == 1;
      assert Assemble(pages).value == Assemble(prefix).value + line;
    }
  }
}
