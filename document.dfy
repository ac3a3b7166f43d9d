/** What a format processor hands to the pipeline (processors/base.py fixes the
    shape; each processor fills it in its own way). */
module Document {

  /** The three processor classes, chosen by file extension. */
  datatype Format = Pdf | Docx | Text

  /** The `structure` dict: PDF fills `'pages'`, DOCX fills `'sections'`,
      plain text stores the whole file under `'full_text'`. */
  datatype Structure =
    | Pages(pages: seq<string>)
    | Sections(sections: seq<string>)
    | FullText(fullText: string)

  /** The `file_profile` dict: `'size'`, `'type'` and `'filename'`. */
  datatype FileProfile = FileProfile(size: nat, mimeType: string, filename: string)

  /** The tuple `(text, structure, file_profile, needs_ocr)` returned by
      `extract_text`. */
  datatype RawDocument = RawDocument(
    text: string,
    structure: Structure,
    profile: FileProfile,
    needsOcr: bool)

  /** The dict returned by `prepare_for_processing`. */
  datatype Prepared = Prepared(wholeDocument: string, ragChunks: seq<string>)
}
