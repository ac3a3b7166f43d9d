/** processors/text.py: a plain-text file is read whole. */
module TextProcessor {

  import opened Common
  import opened Strings
  import opened Document
  import opened Utils

  const TextMimeType := "text/plain"

  /** The result of `extract_text(file_path)`: `contents` is the file decoded as
      UTF-8, or the message of the error reading or decoding it raised, which
      is not caught. The structure is the single entry `'full_text'`. */
  function ExtractText(path: string, size: nat, contents: Result<string, string>): (r: Result<RawDocument, string>)
    ensures contents.Err? ==> r == Err(contents.error)
    ensures contents.Ok? ==> r.Ok? && r.value.text == contents.value &&
                             r.value.structure == FullText(contents.value)
    ensures r.Ok? ==> !r.value.needsOcr &&
                      r.value.profile == FileProfile(size, TextMimeType, Basename(path))
  {
    match contents
    case Err(e) => Err(e)
    case Ok(text) =>
      Ok(RawDocument(text, NormalizeStructure(FullText(text)),
                     FileProfile(size, TextMimeType, Basename(path)), false))
  }

  /** `prepare_for_processing`: the whole text, which is also the one and only
      retrieval chunk whatever the structure. */
  function PrepareForProcessing(text: string, structure: Structure): (r: Prepared)
    ensures r.wholeDocument == text
    ensures r.ragChunks == [text]
  {
    Prepared(text, [text])
  }
}
