/** `services/fileService.ts`: choosing a parser from a file's MIME type and
    name, and the PDF reader that reads every page. The DOCX reader (mammoth)
    and the plain-text reader (FileReader) are outside the model: their
    outcomes are parameters. */
module FileService {
  import opened Common
  import opened Text
  import opened QuizTypes
  import opened PdfText

  const PDF_MIME: string := "application/pdf"
  const DOCX_MIME: string := "application/vnd.openxmlformats-officedocument.wordprocessingml.document"
  const TEXT_MIME: string := "text/plain"
  const UNSUPPORTED_FILE: string := "Unsupported file type. Please upload PDF, DOCX, or TXT."

  datatype Parser = PdfParser | DocxParser | TxtParser | NoParser

  /** The dispatch of `parseFile`: PDF by MIME type first, then DOCX by MIME
      type or by a `.docx` name, then plain text by MIME type. */
  function Route(file: FileRef): (p: Parser)
    ensures p == PdfParser <==> file.mime == PDF_MIME
    ensures p == DocxParser <==> file.mime != PDF_MIME && (file.mime == DOCX_MIME || EndsWith(file.name, ".docx"))
    ensures p == TxtParser <==> file.mime == TEXT_MIME && !EndsWith(file.name, ".docx")
    ensures p == NoParser <==> file.mime !in {PDF_MIME, DOCX_MIME, TEXT_MIME} && !EndsWith(file.name, ".docx")
  {
    if file.mime == PDF_MIME then PdfParser
    else if file.mime == DOCX_MIME || EndsWith(file.name, ".docx") then DocxParser
    else if file.mime == TEXT_MIME then TxtParser
    else NoParser
  }

  /** A `.docx` name wins over a plain-text MIME type. */
  lemma DocxNameBeatsTextMime()
    ensures Route(FileRef("notes.docx", TEXT_MIME)) == DocxParser
  {
    assert "notes.docx"[|"notes.docx"| - |".docx"|..] == ".docx";
  }

  /** A `.txt` name does not help a file whose MIME type is not `text/plain`. */
  lemma TxtNameAloneUnsupported()
    ensures Route(FileRef("notes.txt", "application/octet-stream")) == NoParser
  {
    assert "notes.txt"[|"notes.txt"| - |".docx"|..] != ".docx" by {
      assert "notes.txt"[|"notes.txt"| - |".docx"|..][0] == 's';
    }
  }

  /** `parsePDF`: every page read in order and its line appended; a failing
      page or document propagates its own error. */
  method ParsePdf(doc: PdfDocument) returns (r: Result<string>)
    ensures r == FullText(doc)
  {
    match doc
    case Unreadable(m) =>
      r := Err(m);
    case Loaded(pages) =>
      var fullText := "";
      var i := 0;
      while i < |pages|
        invariant 0 <= i <= |pages|
        invariant Assemble(pages[..i]) == Ok(fullText)
      {
        assert pages[..i + 1][..i] == pages[..i];
        match pages[i]
        case PageError(m) =>
          AssembleErrSticks(pages, i + 1);
          return Err(m);
        case PageText(items) =>
          fullText := fullText + PageLine(items);
        i := i + 1;
      }
      assert pages[..i] == pages;
      r := Ok(fullText);
  }

  /** The outcome of the reader `Route` picks. */
  function ParseOutcome(file: FileRef, pdf: PdfDocument, docx: Result<string>, txt: Result<string>): Result<string> {
    match Route(file)
    case PdfParser => FullText(pdf)
    case DocxParser => docx
    case TxtParser => txt
    case NoParser => Err(UNSUPPORTED_FILE)
  }

  /** `parseFile`: the chosen reader's outcome, or the unsupported-type error.
      `docx` and `txt` are what mammoth and FileReader would produce. */
  method ParseFile(file: FileRef, pdf: PdfDocument, docx: Result<string>, txt: Result<string>)
    returns (r: Result<string>)
    ensures Route(file) == PdfParser ==> r == FullText(pdf)
    ensures Route(file) == DocxParser ==> r == docx
    ensures Route(file) == TxtParser ==> r == txt
    ensures Route(file) == NoParser ==> r == Err(UNSUPPORTED_FILE)
    ensures r == ParseOutcome(file, pdf, docx, txt)
  {
    var parser := Route(file);
    match parser
    case PdfParser =>
      r := ParsePdf(pdf);
    case DocxParser =>
      r := docx;
    case TxtParser =>
      r := txt;
    case NoParser =>
      r := Err(UNSUPPORTED_FILE);
  }
}
