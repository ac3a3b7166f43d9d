/** processors/docx.py: paragraph-by-paragraph text extraction through
    python-docx. */
module DocxProcessor {

  import opened Common
  import opened Strings
  import opened Document
  import opened Utils

  const DocxMimeType := "application/vnd.openxmlformats-officedocument.wordprocessingml.document"

  /** The placeholder text used when python-docx is not installed. */
  const NotInstalledText := "[python-docx not installed]"

  /** The result of `extract_text(file_path)`. `library` is None when python-docx
      is not installed; otherwise it holds the paragraph texts, or the message
      of the exception `docx.Document(file_path)` raised, which is not caught. */
  function DocxDocument(path: string, size: nat, library: Option<Result<seq<string>, string>>): (r: Result<RawDocument, string>)
    ensures library.Some? && library.value.Err? ==> r == Err(library.value.error)
    ensures library.None? ==> r.Ok? && r.value.text == NotInstalledText &&
                              r.value.structure == Sections([NotInstalledText])
    ensures library.Some? && library.value.Ok? ==>
              r.Ok? && r.value.structure == Sections(library.value.value) &&
              r.value.text == Lines(library.value.value)
    ensures r.Ok? ==> !r.value.needsOcr &&
                      r.value.profile == FileProfile(size, DocxMimeType, Basename(path))
  {
    var profile := FileProfile(size, DocxMimeType, Basename(path));
    match library
    case None => Ok(RawDocument(NotInstalledText, Sections([NotInstalledText]), profile, false))
    case Some(Err(e)) => Err(e)
    case Some(Ok(paragraphs)) => Ok(RawDocument(Lines(paragraphs), Sections(paragraphs), profile, false))
  }

  /** `DOCXDocumentProcessor.extract_text`: appends each paragraph to the
      section list and, followed by a newline, to the text. */
  method ExtractText(path: string, size: nat, library: Option<Result<seq<string>, string>>)
    returns (result: Result<RawDocument, string>)
    ensures result == DocxDocument(path, size, library)
  {
    var text := "";
    var sections: seq<string> := [];
    match library {
      case None =>
        text := NotInstalledText;
        sections := sections + [text];
        assert sections == [NotInstalledText];
      case Some(Err(e)) =>
        return Err(e);
      case Some(Ok(paragraphs)) =>
        var i := 0;
        while i < |paragraphs|
          invariant 0 <= i <= |paragraphs|
          invariant sections == paragraphs[..i]
          invariant text == Lines(sections)
        {
          assert paragraphs[..i + 1] == sections + [paragraphs[i]];
          sections := sections + [paragraphs[i]];
          text := text + paragraphs[i] + "\n";
          i := i + 1;
        }
        assert paragraphs[..i] == paragraphs;
    }
    var profile := FileProfile(size, DocxMimeType, Basename(path));
    result := Ok(RawDocument(text, NormalizeStructure(Sections(sections)), profile, false));
  }

  /** `prepare_for_processing`: the whole text, and the sections as retrieval
      chunks (none when the structure has no `'sections'`). */
  function PrepareForProcessing(text: string, structure: Structure): (r: Prepared)
    ensures r.wholeDocument == text
    ensures structure.Sections? ==> r.ragChunks == structure.sections
    ensures !structure.Sections? ==> r.ragChunks == []
  {
    Prepared(text, if structure.Sections? then structure.sections else [])
  }
}
