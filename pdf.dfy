/** processors/pdf.py: page-by-page text extraction through pdfplumber. */
module PdfProcessor {

  import opened Common
  import opened Strings
  import opened Document
  import opened Utils

  const PdfMimeType := "application/pdf"

  /** What pdfplumber delivers for one file: the result of `extract_text()` for
      each page it reached (None for a page without text), and whether an
      exception was raised after those pages (at open, on a later page or at
      close). */
  datatype PdfRead = PdfRead(pageTexts: seq<Option<string>>, raised: bool)

  /** `page.extract_text() or ""` */
  function OrEmpty(t: Option<string>): string
  {
    match t
    case None => ""
    case Some(s) => s
  }

  /** The page list: one entry per page delivered, in order, "" for a page
      whose extraction returned None. */
  function PageStrings(texts: seq<Option<string>>): (r: seq<string>)
    ensures |r| == |texts|
    ensures forall i :: 0 <= i < |texts| ==> r[i] == OrEmpty(texts[i])
  {
    seq(|texts|, i requires 0 <= i < |texts| => OrEmpty(texts[i]))
  }

  /** The result of `extract_text(file_path)`; `library` is None when pdfplumber
      is not installed. */
  function PdfDocument(path: string, size: nat, library: Option<PdfRead>): (d: RawDocument)
    ensures d.profile == FileProfile(size, PdfMimeType, Basename(path))
    ensures library.None? ==> d.text == "" && d.structure == Pages([]) && d.needsOcr
    ensures library.Some? ==>
              && d.structure == Pages(PageStrings(library.value.pageTexts))
              && d.text == Lines(d.structure.pages)
    ensures library.Some? ==>
              (d.needsOcr <==> library.value.raised ||
                               forall i :: 0 <= i < |d.structure.pages| ==> Blank(d.structure.pages[i]))
  {
    var profile := FileProfile(size, PdfMimeType, Basename(path));
    match library
    case None => RawDocument("", Pages([]), profile, true)
    case Some(read) =>
      var pages := PageStrings(read.pageTexts);
      var text := Lines(pages);
      StripEmptyIffBlank(text);
      LinesBlankIff(pages);
      RawDocument(text, Pages(pages), profile, read.raised || Strip(text) == "")
  }

  /** `PDFDocumentProcessor.extract_text`: appends each page's text to the page
      list and, followed by a newline, to the text. */
  method ExtractText(path: string, size: nat, library: Option<PdfRead>) returns (doc: RawDocument)
    ensures doc == PdfDocument(path, size, library)
  {
    var text := "";
    var pages: seq<string> := [];
    var needsOcr := false;
    match library {
      case None =>
        needsOcr := true;
      case Some(read) =>
        var i := 0;
        while i < |read.pageTexts|
          invariant 0 <= i <= |read.pageTexts|
          invariant pages == PageStrings(read.pageTexts[..i])
          invariant text == Lines(pages)
        {
          var pageText := OrEmpty(read.pageTexts[i]);
          assert pages + [pageText] == PageStrings(read.pageTexts[..i + 1]);
          pages := pages + [pageText];
          text := text + pageText + "\n";
          i := i + 1;
        }
        assert read.pageTexts[..i] == read.pageTexts;
        if read.raised || Strip(text) == "" {
          needsOcr := true;
        }
    }
    var profile := FileProfile(size, PdfMimeType, Basename(path));
    doc := RawDocument(text, NormalizeStructure(Pages(pages)), profile, needsOcr);
  }

  /** `prepare_for_processing`: the whole text, and the pages as retrieval
      chunks (none when the structure has no `'pages'`). */
  function PrepareForProcessing(text: string, structure: Structure): (r: Prepared)
    ensures r.wholeDocument == text
    ensures structure.Pages? ==> r.ragChunks == structure.pages
    ensures !structure.Pages? ==> r.ragChunks == []
  {
    Prepared(text, if structure.Pages? then structure.pages else [])
  }
}
