# document_preparation in Dafny

This project models the command-line document preparation tool of
`document_preparation/cli`. The tool runs these steps in order:

1. It loads `.env` into the process environment and finds the Claude API key.
2. It picks a processor (PDF, DOCX or plain text) from the file extension.
3. The processor extracts the text, the page or section structure, a file
   profile and an OCR flag.
4. It asks Claude for metadata. The reply is parsed tolerantly: as it stands,
   as a fenced code block, or as its `{`...`}` span. Failed attempts are retried
   with exponential backoff. When every attempt fails, the raw text is used
   instead.
5. It can ask Claude for a coverage score.
6. It assembles the document record and the numbered chunk list.

Modules, one per source file (plus shared definitions):

| module | file | form |
|---|---|---|
| `Common`, `Strings`, `Document`, `Llm` | shared values: JSON values, Python string operations, the processor tuple, requests and replies | pure |
| `Utils` | `processors/utils.py` | pure |
| `PdfProcessor`, `DocxProcessor`, `TextProcessor` | `processors/pdf.py`, `processors/docx.py`, `processors/text.py` | each extraction loop is a method proved equal to a function |
| `RetryPolicy` | the retry discipline shared by both LLM clients | pure specification |
| `ClaudeExtractor` | `llm/claude_extractor.py` | `parse_llm_json` pure; the retry loop a method |
| `CoverageChecker` | `llm/coverage_checker.py` | the retry loop a method |
| `Prepare` | `prepare.py` | `os.environ` is a class updated by `load_env_file`; `main` is a method proved equal to the function `RunSpec` |

The outside world is passed in as values:
- `json.loads` is a function from text to a decoded value or an error message.
- The Anthropic API is a function from the attempt number to the reply: an API error, another exception, or the reply text with its elapsed milliseconds.
- `\w` is a character predicate.
- The document libraries are the pages or paragraphs they deliver.

The LLM clients return the requests they issued and the delays they asked `time.sleep` for, as real out-parameters.

## Model

| member | source | states |
|---|---|---|
| ClaudeExtractor.ParseLlmJsonStages | document_preparation/cli/llm/claude_extractor.py:10-35 | The stages run in order. A reply that decodes as it stands is returned as decoded. Otherwise a decodable fenced body wins. Otherwise a decodable brace span. Any success is one of these three decodings. Parsing fails exactly when all three fail, and the error quotes the reply's first 200 characters. |
| ClaudeExtractor.Unfence | document_preparation/cli/llm/claude_extractor.py:17-22 | The fence strategy applies exactly when the stripped reply starts with three backticks, and its candidate text is stripped. |
| ClaudeExtractor.RemoveOpeningFence | document_preparation/cli/llm/claude_extractor.py:19 | When the text starts with the fence and its run of ASCII letters is followed by a newline, everything up to and including that newline is removed. In every other case the text is unchanged. |
| ClaudeExtractor.RemoveClosingFence | document_preparation/cli/llm/claude_extractor.py:20-21 | A trailing fence is removed, and only then. |
| ClaudeExtractor.OpeningFenceRemoved | document_preparation/cli/llm/claude_extractor.py:19 | The fence, a language tag of ASCII letters and the newline are removed, and the rest is kept intact. |
| ClaudeExtractor.FencedReplyStrips | document_preparation/cli/llm/claude_extractor.py:17 | Stripping a fenced reply removes exactly the whitespace around the block. |
| ClaudeExtractor.FenceBlockUnfences | document_preparation/cli/llm/claude_extractor.py:18-22 | A fenced block starts with the fence and, for any body, unfences to the body stripped. |
| ClaudeExtractor.FencedReplyUnfences | document_preparation/cli/llm/claude_extractor.py:17-22 | A fenced reply gives back its body, stripped: opening fence with a language tag, newline, any body, newline, closing fence, with any whitespace around it. |
| ClaudeExtractor.FencedReplyParses | document_preparation/cli/llm/claude_extractor.py:12-26 | When such a reply does not decode as a whole, the result is the decoding of its stripped body. |
| Strings.BraceSpan | document_preparation/cli/llm/claude_extractor.py:29-31 | A span exists exactly when some `{` precedes some `}`. The span runs from the first `{` to the last `}`, and it starts with `{` and ends with `}`. |
| ClaudeExtractor.ProseWrappedReplySpan | document_preparation/cli/llm/claude_extractor.py:28-31 | An object between prose with no `{` before it and no `}` after it is exactly the span cut out. |
| ClaudeExtractor.ProseWrappedReplyParses | document_preparation/cli/llm/claude_extractor.py:12-33 | When neither the whole reply nor its fenced body decodes, the result is the decoding of the span. |
| ClaudeExtractor.ReplyWithoutJsonFails | document_preparation/cli/llm/claude_extractor.py:35 | A reply that does not decode, is not fenced and holds no `{` fails with the message quoting its first 200 characters (the whole reply when it is short). |
| ClaudeExtractor.TemplateFor | document_preparation/cli/llm/claude_extractor.py:52 | The with-year template is used exactly when the year is requested. |
| ClaudeExtractor.ExtractOnce | document_preparation/cli/llm/claude_extractor.py:60-88 | One pass through the `try`: the parsed data with the elapsed milliseconds, or the `last_error` that each `except` clause records. |
| ClaudeExtractor.ExtractWithClaude | document_preparation/cli/llm/claude_extractor.py:37-90 | An unusable key raises before any call. Otherwise the result, the number of calls and the sleeps are those of the retry specification. Every call sends the same request: the chosen template, temperature 0. |
| ClaudeExtractor.ExtractResultOrigin | document_preparation/cli/llm/claude_extractor.py:60-72 | A successful extraction returns the tolerant parse of the last reply's text, paired with that reply's elapsed milliseconds. Every earlier attempt was an exception or an unparseable reply. |
| ClaudeExtractor.ExtractFailureReason | document_preparation/cli/llm/claude_extractor.py:74-90 | When extraction gives up, the error names retry_attempts + 1 attempts and the last attempt's error: "Claude API error: …", "Unexpected error: …", or the parse failure quoting the last reply. |
| ClaudeExtractor.AlwaysFailingExtraction | document_preparation/cli/llm/claude_extractor.py:58-90 | With two retries and an API that always errs, exactly three calls are made with sleeps of 1 and 2 seconds, and the error names 3 attempts and the third call's error. |
| RetryPolicy.RetryStepSucceeded | document_preparation/cli/llm/claude_extractor.py:72 | An attempt that yields a value ends the loop at once, without a sleep. |
| RetryPolicy.RetryStepFailed | document_preparation/cli/llm/claude_extractor.py:74-88 | A failed attempt becomes the last error, is followed by a sleep of 2^i unless it was the last attempt, and the loop goes on. |
| RetryPolicy.RetryFromOutcome | document_preparation/cli/llm/claude_extractor.py:58-90 | From attempt i on, attempts run up to the first success or through the last one. A success is the last attempt's value. Exhaustion reports retry_attempts + 1 and the last failure. |
| RetryPolicy.RetryFromSleeps | document_preparation/cli/llm/claude_extractor.py:76-87 | From attempt i on, each failed attempt except the last is followed by one sleep of 2^j. |
| RetryPolicy.RetryAttemptCount | document_preparation/cli/llm/claude_extractor.py:59 | At most retry_attempts + 1 calls are made, and at least one when retry_attempts is not negative. |
| RetryPolicy.RetryFirstSuccess | document_preparation/cli/llm/claude_extractor.py:59-72 | The loop returns a value exactly when some attempt within the bound succeeds. It is the value of the first such attempt, and every attempt before it failed. |
| RetryPolicy.RetryExhausted | document_preparation/cli/llm/claude_extractor.py:90 | When the loop raises, every allowed attempt was made and failed. The error carries retry_attempts + 1 and the last attempt's error, or None when no attempt ran. |
| RetryPolicy.RetrySleepSchedule | document_preparation/cli/llm/claude_extractor.py:76-87 | The delays slept are 1, 2, 4, ...: one between consecutive attempts and none after the last. |
| CoverageChecker.StructureText | document_preparation/cli/llm/coverage_checker.py:24 | A structure without pages contributes nothing, and a single page contributes itself. |
| CoverageChecker.StructureTextPages | document_preparation/cli/llm/coverage_checker.py:24 | Each further page is appended after one space. The text is as long as the pages together plus one space between each consecutive pair. |
| CoverageChecker.SoftFail | document_preparation/cli/llm/coverage_checker.py:48 | The soft failure is a dict with a null `score` and the raw reply as `text`. |
| CoverageChecker.ReadVerdict | document_preparation/cli/llm/coverage_checker.py:40-48 | The reply's verdict: the decoded span, the soft failure when there is no span, or the decoder's error reported as an unexpected error. |
| CoverageChecker.CheckOnce | document_preparation/cli/llm/coverage_checker.py:32-59 | One pass through the `try`: the verdict, or the `last_error` that each `except` clause records. |
| CoverageChecker.CheckCoverage | document_preparation/cli/llm/coverage_checker.py:10-61 | An unusable key raises before any call. Otherwise the result, the number of calls and the sleeps are those of the retry specification, and every call sends the same coverage request. |
| CoverageChecker.SpanlessReplyEndsCheck | document_preparation/cli/llm/coverage_checker.py:40-48 | A first reply without a brace span ends the check after one call and no sleep, returning the soft failure. |
| CoverageChecker.UndecodableSpanIsRetried | document_preparation/cli/llm/coverage_checker.py:43-59 | A span that does not decode is retried. With one retry and a decodable second reply, the check makes two calls and one 1-second sleep, and returns the second reply's value. |
| CoverageChecker.CheckResultOrigin | document_preparation/cli/llm/coverage_checker.py:30-61 | Any value returned comes from the last reply: its decoded span, or its soft failure. |
| Utils.TokensAreWords | document_preparation/cli/processors/utils.py:4-5 | Every token found is a non-empty run of word characters. |
| Utils.TokenCountSnoc | document_preparation/cli/processors/utils.py:4-5 | Appending a character adds one token exactly when that character starts a new word run. |
| Utils.TokenCountIsRunStarts | document_preparation/cli/processors/utils.py:4-5 | The token count equals an independent count of the positions where a word run starts. |
| Utils.TokenCountZeroIff | document_preparation/cli/processors/utils.py:4-5 | The count is zero exactly when the text holds no word character. |
| Utils.TokenCountBound | document_preparation/cli/processors/utils.py:4-5 | A text of length n holds at most (n + 1) / 2 tokens, and at most n / 2 when it starts with a separator. |
| Utils.TokensAroundSeparator | document_preparation/cli/processors/utils.py:4-5 | A non-word character splits the tokens of a joined text exactly. |
| Utils.TokensConcat | document_preparation/cli/processors/utils.py:4-5 | A text ending in a non-word character can be followed by anything without merging tokens. |
| Utils.TokenCountOfLines | document_preparation/cli/processors/utils.py:4-5 | The token count of the newline-joined pages or paragraphs is the sum of their token counts. |
| Utils.LinesBlankIff | document_preparation/cli/processors/pdf.py:23-25 | The accumulated text is whitespace only exactly when every page is. |
| Utils.NormalizeStructure | document_preparation/cli/processors/utils.py:7-8 | The structure is passed through unchanged. |
| PdfProcessor.PageStrings | document_preparation/cli/processors/pdf.py:20-22 | One entry per page read, in order: the page's text, or "" for a page without text. |
| PdfProcessor.PdfDocument | document_preparation/cli/processors/pdf.py:12-38 | Without pdfplumber: empty text and pages, and OCR needed. With it: the pages read, their newline-terminated concatenation as text, and OCR needed exactly when an exception was raised or every page is blank. The profile is `application/pdf` with the basename. |
| PdfProcessor.ExtractText | document_preparation/cli/processors/pdf.py:12-38 | The page loop produces exactly `PdfDocument`. |
| PdfProcessor.PrepareForProcessing | document_preparation/cli/processors/pdf.py:43-47 | The whole text, and the pages as retrieval chunks (none without pages). |
| DocxProcessor.DocxDocument | document_preparation/cli/processors/docx.py:12-31 | Without python-docx: the placeholder text as the single section. With it: the paragraphs as sections and their newline-terminated concatenation as text. An open failure propagates. OCR is never needed. |
| DocxProcessor.ExtractText | document_preparation/cli/processors/docx.py:12-31 | The paragraph loop produces exactly `DocxDocument`. |
| DocxProcessor.PrepareForProcessing | document_preparation/cli/processors/docx.py:36-40 | The whole text, and the sections as retrieval chunks. |
| TextProcessor.ExtractText | document_preparation/cli/processors/text.py:7-19 | The file's contents as text and as the `full_text` structure, or the read error. `text/plain` profile, and OCR is never needed. |
| TextProcessor.PrepareForProcessing | document_preparation/cli/processors/text.py:24-28 | The whole text, which is also the single retrieval chunk. |
| Prepare.ParseEnvLineAssigns | document_preparation/cli/prepare.py:23-24 | A line assigns exactly when, stripped, it is non-empty, does not start with `#`, and holds an `=`. |
| Prepare.ParseEnvLineShape | document_preparation/cli/prepare.py:25-26 | An assignment's key and value are stripped, and its key holds no `=`. |
| Prepare.SplitAssignment | document_preparation/cli/prepare.py:25 | Splitting at the first `=` of `key=value` with an `=`-free key gives back the key and the value. |
| Prepare.AssignmentLineParses | document_preparation/cli/prepare.py:22-26 | `KEY=VALUE` with any whitespace around it sets KEY to VALUE. |
| Prepare.CommentLineSkipped | document_preparation/cli/prepare.py:24 | A comment line sets nothing. |
| Prepare.ApplyLineStep | document_preparation/cli/prepare.py:22-26 | Applying the parsed lines one more line at a time is one turn of the loop. |
| Prepare.EnvUnsetKeyKept | document_preparation/cli/prepare.py:22-26 | A key that no line sets keeps its previous value, or stays absent. |
| Prepare.EnvLastAssignmentWins | document_preparation/cli/prepare.py:22-26 | The last line that sets a key decides its value. |
| Prepare.Environment.LoadEnvFile | document_preparation/cli/prepare.py:17-26 | A missing `.env` leaves the environment unchanged. Otherwise the environment becomes the old one with the file's assignments applied in order. |
| Prepare.GetApiKey | document_preparation/cli/prepare.py:28-42 | A non-empty environment key takes precedence over the config key. The chosen key is returned only when usable, and otherwise the "API key not found" error. |
| Prepare.PlaceholderInEnvironmentMasksConfig | document_preparation/cli/prepare.py:29-40 | A placeholder in the environment is not replaced by a good config key; the lookup fails. |
| Prepare.DotEnvKeyUsed | document_preparation/cli/prepare.py:17-42 | A usable key set by the last CLAUDE_API_KEY line of `.env` is the key used, whatever the config says. |
| Prepare.NameSuffix | document_preparation/cli/prepare.py:49 | The suffix is empty, or a proper tail of the name that starts at its only counted `.` and has at least one character after it. |
| Prepare.DetectProcessor | document_preparation/cli/prepare.py:48-57 | PDF, DOCX or text exactly when the lower-cased suffix is `.pdf`, `.docx` or `.txt`. Otherwise "Unsupported file type" with the lower-cased suffix. |
| Prepare.BasenameOfJoin | document_preparation/cli/prepare.py:87 | The final component of `dir/name` is `name`. |
| Prepare.NameSuffixOf | document_preparation/cli/prepare.py:49 | `stem.ext` has the suffix `.ext`. |
| Prepare.SuffixOfName | document_preparation/cli/prepare.py:49 | A file `stem.ext` in any directory has the suffix `.ext`. |
| Prepare.UpperCaseSuffixAccepted | document_preparation/cli/prepare.py:49-55 | `.PDF`, `.DOCX` and `.TXT` choose the same processors as their lower-case forms. |
| Prepare.NoSuffixRefused | document_preparation/cli/prepare.py:56-57 | A file name without a dot is refused, with an empty extension in the message. |
| Prepare.Chunks | document_preparation/cli/prepare.py:177-184 | One chunk per page (else per section, else none), in order. Chunk i has number i + 1 and source page i + 1. |
| Prepare.BuildChunks | document_preparation/cli/prepare.py:177-184 | The `enumerate(pages, 1)` loop builds exactly `Chunks`. |
| Prepare.ExtractDocument | document_preparation/cli/prepare.py:96 | Each processor's extraction loop produces its specified document. |
| Prepare.ExtractionStep | document_preparation/cli/prepare.py:105-132 | `llm_data, processing_ms` are the extraction's value, or the fallback dict and 0 when it raises. One request is sent per attempt. Each request carries the first page (the first PDF page, else the first 2000 characters), the whole text and the template the year flag selects. |
| Prepare.CoverageStep | document_preparation/cli/prepare.py:134-154 | The coverage fields of the run. No call is made when coverage is off. Otherwise one request is sent per attempt, carrying the pages and `llm_data.get('llm_markdown', '')`. |
| Prepare.CoverageErrorLeavesNull | document_preparation/cli/prepare.py:134-154 | An enabled check that raises CoverageCheckError leaves score and detail null, and the run goes on. |
| Prepare.CoverageOffLeavesNull | document_preparation/cli/prepare.py:134-137 | With coverage off, by the flag or by a falsy `check_coverage`, score and detail are null and no coverage call is made. |
| Prepare.AssembleRun | document_preparation/cli/prepare.py:156-184 | Building `document_data` and the chunks gives exactly the specified outcome. |
| Prepare.NonObjectDataFails | document_preparation/cli/prepare.py:120 | An extraction reply that decodes to something other than a dict fails the run at its first `.get`. |
| Prepare.ObjectDataAssembled | document_preparation/cli/prepare.py:119-184 | With a dict as `llm_data`, the run goes on to coverage and assembly. |
| Prepare.CompleteRun | document_preparation/cli/prepare.py:105-184 | From the extracted document to the record and chunks, as specified, with the extraction and coverage requests that document determines. |
| Prepare.ProcessDocument | document_preparation/cli/prepare.py:91-197 | The body of the outer `try`: an unsupported extension or an extraction error fails the run with its message, and no call is made. Otherwise the run completes as specified, with the calls made from the extracted document. |
| Prepare.Run | document_preparation/cli/prepare.py:59-197 | `main` ends as `RunSpec` says. The environment changes only by loading `.env`, and only once both files exist. A run that never reaches the model sends nothing. Otherwise it sends one request per extraction attempt and, when coverage runs, one per coverage attempt, all built from the config and the extracted document. |
| Prepare.ReachedRunCompletes | document_preparation/cli/prepare.py:69-197 | A run that reaches the model ends as the rest of the run from its document. A run that does not reach it never succeeds. |
| Prepare.FallbackRun | document_preparation/cli/prepare.py:122-156 | When extraction is exhausted, the run still succeeds unless the coverage step fails. The record has the raw text as markdown, the file name as title, null country, region and partner, 0 ms and the coverage step's fields. |
| Prepare.YearOnlyWhenRequested | document_preparation/cli/prepare.py:174-175 | The record has `year` exactly when it was requested, and it is `llm_data.get('year')`. |
| Prepare.RecordCopiesLlmData | document_preparation/cli/prepare.py:163-169 | Title, country, region, partner and markdown are copied from `llm_data` (a missing key reads as null), together with the extraction's milliseconds. |
| Prepare.RecordDescribesFile | document_preparation/cli/prepare.py:157-162 | File name, MIME type, size, page count, token count and OCR flag come from the extracted document. |
| Prepare.RecordCarriesCoverage | document_preparation/cli/prepare.py:148-171 | With a dict as `llm_data`, the run succeeds exactly when the coverage step does, and then carries its score and detail. Otherwise it fails with the coverage step's error. |
| Prepare.CoverageFieldsOnlyFromCheck | document_preparation/cli/prepare.py:134-149 | A non-null coverage field implies that the check was enabled and returned a dict, and the fields are its `score` and `text`. |
| Prepare.NonObjectCoverageFails | document_preparation/cli/prepare.py:148 | A check result that is not a dict fails the run. |
| Prepare.ChunksNumberedFromOne | document_preparation/cli/prepare.py:177-184 | A successful run has one chunk per page or section, numbered 1, 2, ... with a matching source page and the segment's text. |
| Prepare.TextFileCounts | document_preparation/cli/prepare.py:101-107 | A plain-text file counts as one page and yields no chunks. Its first page is the first 2000 characters. |
| Prepare.PdfCounts | document_preparation/cli/prepare.py:101-107 | A PDF read through the library counts one page and one chunk per page read. Its first page is the first page's text. |
| Prepare.DocxCounts | document_preparation/cli/prepare.py:101-107 | A DOCX counts its paragraphs as pages and chunks, but its first page is a 2000-character prefix of the text. |
| Prepare.PreparedChunksAreChunkTexts | document_preparation/cli/processors/pdf.py:43-47 | For pages and sections, the retrieval chunks of `prepare_for_processing` are the texts of the chunks `main` writes. For plain text they are the whole text, where `main` writes none. |
| Prepare.EarlyExits | document_preparation/cli/prepare.py:69-85 | A missing input file, a missing config file, an undecodable config, or no usable key each stop the run before any output, with the matching message. |
| Prepare.SuccessNeedsKeyAndDocument | document_preparation/cli/prepare.py:69-96 | A successful run had both files, a decodable config, a usable key, a supported extension and an extracted document. |

## Left out

- The Anthropic client and the network: each call's outcome is a parameter, and the prompt text rendered by `llm/prompts.py` is kept symbolic (template and substituted values). `llm/prompts.py` is not part of this model.
- `time.time`, `time.sleep` and `datetime.now`: the elapsed milliseconds are part of each reply, sleeps are recorded as requested delays, and the record's `processing_timestamp` is not modelled.
- `json.loads` and `json.load` are parameters. A real decoder always turns a span that starts with `{` into a dict, so the path of `Prepare.NonObjectCoverageFails` cannot occur with it. JSON numbers are integers only (no floats).
- pdfplumber and python-docx internals: the model receives the page texts (and whether an exception interrupted the read) or the paragraph texts. `os.stat` gives the size as a parameter. The OCR itself is not performed by the source either.
- `output/writer.py`, the log lines, `print` and `sys.exit`: the run's outcome distinguishes an early exit, a FAILED run with the exception's text, and a SUCCESS with the record and chunks. `output/writer.py` is not part of this model.
- argparse: the command line is a record of the input path, the config path and the two flags; the output directory only matters to the writer.
- The config is the decoded keys the driver reads. A missing required key (KeyError), values of other types than those recorded, a config that decodes to a non-dict, and I/O errors from `load_config` are not modelled.
- Prepare.Environment.LoadEnvFile: the ValueError that `os.environ` raises for an empty key or a NUL character is not modelled, nor the process-wide effect of `putenv`.
- `open(..., 'r')` translates universal newlines ("\r\n" and "\r" become "\n") and decodes the file. The model receives the plain-text file's contents and the lines of `.env` after that translation, so the translation itself is not modelled.
- `os.path.basename` and `Path.suffix` are modelled on `/`-separated strings without path normalisation. `\w` is a parameter. `lower()` is modelled on ASCII letters only.
- Dict key order, and the JSON written to `document.json` and `chunks.json`, are not modelled.

Where the code and the tool's written description disagree, the model follows the code:
- A coverage reply whose brace span does not decode raises inside the loop's `try`. It is therefore retried as an unexpected error, not returned as the soft failure.
- When pdfplumber raises part-way through, the pages read before the exception are kept, and OCR is flagged.
- A plain-text file has a page count of 1 but produces no chunks.
