/** prepare.py: the command-line driver. It loads `.env` into the process
    environment, finds the API key, picks the processor by file extension,
    extracts the document, asks the model for metadata (falling back to the
    raw text when that fails), optionally asks for a coverage score, and
    assembles the document record and the retrieval chunks. */
module Prepare {

  import opened Common
  import opened Strings
  import opened Document
  import opened Utils
  import PdfProcessor
  import DocxProcessor
  import TextProcessor
  import opened Llm
  import opened RetryPolicy
  import opened ClaudeExtractor
  import opened CoverageChecker

  // ---------------------------------------------------------------- .env

  /** What one line of `.env` does: nothing, or set `key` to `value`. */
  datatype EnvLine = Skip | Assign(key: string, value: string)

  /** A stripped line that is non-empty, does not start with `#` and holds an
      `=` is split at its first `=`; both halves are stripped. */
  function ParseEnvLine(line: string): EnvLine
  {
    var t := Strip(line);
    if t != "" && t[0] != '#' && Find(t, '=') >= 0 then
      var i := Find(t, '=');
      Assign(Strip(t[..i]), Strip(t[i + 1..]))
    else Skip
  }

  /** Exactly the non-empty, non-comment lines holding an `=` assign. */
  lemma ParseEnvLineAssigns(line: string)
    ensures ParseEnvLine(line).Assign? <==>
            var t := Strip(line); t != "" && t[0] != '#' && Find(t, '=') >= 0
  {
  }

  /** An assignment's key and value carry no surrounding whitespace and the
      key holds no `=`. */
  lemma ParseEnvLineShape(line: string)
    requires ParseEnvLine(line).Assign?
    ensures var r := ParseEnvLine(line);
            IsStripped(r.key) && IsStripped(r.value) && forall i :: 0 <= i < |r.key| ==> r.key[i] != '='
  {
    var t := Strip(line);
    var u := t[..Find(t, '=')];
    assert forall k :: 0 <= k < |u| ==> u[k] == t[k];
    StripAvoids(u, '=');
  }

  /** The parse spelled out as the loop of `load_env_file` performs it. */
  lemma ParseEnvLineSteps(line: string)
    ensures var t := Strip(line);
            var split := Find(t, '=');
            ParseEnvLine(line) ==
              if t != "" && t[0] != '#' && split >= 0 then Assign(Strip(t[..split]), Strip(t[split + 1..]))
              else Skip
  {
  }

  /** Whitespace around an assignment is what the line's strip removes. */
  lemma StripAssignmentLine(w1: string, key: string, value: string, w2: string)
    requires Blank(w1) && Blank(w2)
    requires key != [] && IsStripped(key) && IsStripped(value)
    ensures Strip(w1 + key + "=" + value + w2) == key + "=" + value
  {
    var t := key + "=" + value;
    assert w1 + key + "=" + value + w2 == w1 + t + w2;
    assert t[0] == key[0];
    assert t[|t| - 1] == if value == [] then '=' else value[|value| - 1];
    StripPadded(w1, t, w2);
  }

  /** In an assignment whose key is `=`-free, the first `=` follows the key. */
  lemma SplitAssignment(key: string, value: string)
    requires forall i :: 0 <= i < |key| ==> key[i] != '='
    ensures var t := key + "=" + value;
            && Find(t, '=') == |key|
            && t[..|key|] == key
            && t[|key| + 1..] == value
  {
    var t := key + "=" + value;
    assert t[|key|] == '=';
    assert forall i :: 0 <= i < |key| ==> t[i] == key[i];
    assert t[..|key|] == key;
    assert t[|key| + 1..] == value;
  }

  /** `KEY=VALUE`, with any whitespace around it, sets KEY to VALUE. */
  lemma AssignmentLineParses(w1: string, key: string, value: string, w2: string)
    requires Blank(w1) && Blank(w2)
    requires key != [] && IsStripped(key) && key[0] != '#'
    requires forall i :: 0 <= i < |key| ==> key[i] != '='
    requires IsStripped(value)
    ensures ParseEnvLine(w1 + key + "=" + value + w2) == Assign(key, value)
  {
    StripAssignmentLine(w1, key, value, w2);
    SplitAssignment(key, value);
    StripStripped(key);
    StripStripped(value);
    ParseEnvLineSteps(w1 + key + "=" + value + w2);
  }

  /** A comment line sets nothing, whatever it holds. */
  lemma CommentLineSkipped(w: string, rest: string)
    requires Blank(w)
    ensures ParseEnvLine(w + "#" + rest) == Skip
  {
    var x := w + "#" + rest;
    assert x[|w|] == '#';
    PrefixRunIs(x, IsSpace, |w|);
    assert TrimLeft(x)[0] == '#';
  }

  /** `[f(x) for x in xs]`, built from the front. */
  function Map<A, B>(f: A -> B, xs: seq<A>): (r: seq<B>)
    ensures |r| == |xs|
  {
    if xs == [] then [] else Map(f, xs[..|xs| - 1]) + [f(xs[|xs| - 1])]
  }

  /** Entry i of the mapped sequence is `f` of element i. */
  lemma {:induction false} MapAt<A, B>(f: A -> B, xs: seq<A>)
    ensures forall i :: 0 <= i < |xs| ==> Map(f, xs)[i] == f(xs[i])
  {
    if xs != [] {
      var init := xs[..|xs| - 1];
      MapAt(f, init);
      assert forall i :: 0 <= i < |init| ==> init[i] == xs[i];
    }
  }

  /** Mapping one more element. */
  lemma MapSnoc<A, B>(f: A -> B, xs: seq<A>, i: nat)
    requires i < |xs|
    ensures Map(f, xs[..i + 1]) == Map(f, xs[..i]) + [f(xs[i])]
  {
    assert xs[..i + 1][..i] == xs[..i];
  }

  /** What each line of the file does, in order. */
  function ParseEnvFile(lines: seq<string>): seq<EnvLine>
  {
    Map(ParseEnvLine, lines)
  }

  /** The environment after applying the entries in order. */
  function ApplyEnvLines(vars: map<string, string>, entries: seq<EnvLine>): map<string, string>
  {
    if entries == [] then vars
    else
      var before := ApplyEnvLines(vars, entries[..|entries| - 1]);
      match entries[|entries| - 1]
      case Skip => before
      case Assign(key, value) => before[key := value]
  }

  /** Applying one more entry. */
  lemma ApplyEnvLinesSnoc(vars: map<string, string>, entries: seq<EnvLine>, entry: EnvLine)
    ensures ApplyEnvLines(vars, entries + [entry]) ==
            match entry
            case Skip => ApplyEnvLines(vars, entries)
            case Assign(key, value) => ApplyEnvLines(vars, entries)[key := value]
  {
    assert (entries + [entry])[..|entries|] == entries;
  }

  /** One more line, read by any line parser. */
  lemma ApplyMappedSnoc(vars: map<string, string>, parse: string -> EnvLine, lines: seq<string>, i: nat)
    requires i < |lines|
    ensures ApplyEnvLines(vars, Map(parse, lines[..i + 1])) ==
            match parse(lines[i])
            case Skip => ApplyEnvLines(vars, Map(parse, lines[..i]))
            case Assign(key, value) => ApplyEnvLines(vars, Map(parse, lines[..i]))[key := value]
  {
    MapSnoc(parse, lines, i);
    ApplyEnvLinesSnoc(vars, Map(parse, lines[..i]), parse(lines[i]));
  }

  /** The body of `load_env_file`'s loop: one line of the file applied to
      the environment. */
  function ApplyLine(vars: map<string, string>, raw: string): map<string, string>
  {
    var line := Strip(raw);
    if line != "" && line[0] != '#' && Find(line, '=') >= 0 then
      var split := Find(line, '=');
      vars[Strip(line[..split]) := Strip(line[split + 1..])]
    else vars
  }

  /** Applying the parsed lines one by one is the loop, line by line. */
  lemma ApplyLineStep(vars: map<string, string>, lines: seq<string>, i: nat)
    requires i < |lines|
    ensures ApplyEnvLines(vars, ParseEnvFile(lines[..i + 1])) ==
            ApplyLine(ApplyEnvLines(vars, ParseEnvFile(lines[..i])), lines[i])
  {
    ApplyMappedSnoc(vars, ParseEnvLine, lines, i);
    ParseEnvLineSteps(lines[i]);
  }

  /** `load_env_file()`: a missing `.env` leaves the environment alone. */
  function EnvLoad(vars: map<string, string>, envFile: Option<seq<string>>): map<string, string>
  {
    match envFile
    case None => vars
    case Some(lines) => ApplyEnvLines(vars, ParseEnvFile(lines))
  }

  /** The entry sets `key`. */
  predicate Sets(entry: EnvLine, key: string)
  {
    entry.Assign? && entry.key == key
  }

  /** A key that no line sets keeps the value it had, or stays absent. */
  lemma {:induction false} EnvUnsetKeyKept(vars: map<string, string>, entries: seq<EnvLine>, key: string)
    requires forall i :: 0 <= i < |entries| ==> !Sets(entries[i], key)
    ensures key in ApplyEnvLines(vars, entries) <==> key in vars
    ensures key in vars ==> ApplyEnvLines(vars, entries)[key] == vars[key]
  {
    if entries != [] {
      var init := entries[..|entries| - 1];
      assert forall i :: 0 <= i < |init| ==> init[i] == entries[i];
      EnvUnsetKeyKept(vars, init, key);
    }
  }

  /** The last line that sets a key decides its value: later lines overwrite
      earlier ones. */
  lemma {:induction false} EnvLastAssignmentWins(vars: map<string, string>, entries: seq<EnvLine>,
                                                 key: string, i: nat)
    requires i < |entries| && Sets(entries[i], key)
    requires forall j :: i < j < |entries| ==> !Sets(entries[j], key)
    ensures key in ApplyEnvLines(vars, entries)
    ensures ApplyEnvLines(vars, entries)[key] == entries[i].value
  {
    var n := |entries|;
    var init := entries[..n - 1];
    if i < n - 1 {
      assert init[i] == entries[i];
      assert forall j :: i < j < |init| ==> init[j] == entries[j];
      EnvLastAssignmentWins(vars, init, key, i);
    }
  }

  /** `os.environ`, the one piece of process state `main` changes. */
  class Environment {
    var vars: map<string, string>

    constructor (initial: map<string, string>)
      ensures vars == initial
    {
      vars := initial;
    }

    /** `load_env_file()`: reads `.env` (None when it does not exist) line by
        line, setting `os.environ[key] = value` for each assignment. */
    method LoadEnvFile(envFile: Option<seq<string>>)
      modifies this
      ensures vars == EnvLoad(old(vars), envFile)
    {
      if envFile.None? {
        return;
      }
      var lines := envFile.value;
      var i := 0;
      while i < |lines|
        invariant 0 <= i <= |lines|
        invariant vars == ApplyEnvLines(old(vars), ParseEnvFile(lines[..i]))
      {
        ApplyLineStep(old(vars), lines, i);
        var line := Strip(lines[i]);
        if line != "" && line[0] != '#' && Find(line, '=') >= 0 {
          var split := Find(line, '=');
          vars := vars[Strip(line[..split]) := Strip(line[split + 1..])];
        }
        i := i + 1;
      }
      assert lines[..i] == lines;
    }
  }

  // ---------------------------------------------------------------- API key

  const ApiKeyVariable := "CLAUDE_API_KEY"

  const ApiKeyNotFound :=
    "API key not found. Please either:\n" +
    "  1. Set CLAUDE_API_KEY in .env file, or\n" +
    "  2. Set CLAUDE_API_KEY environment variable, or\n" +
    "  3. Set claude_api_key in config.json"

  /** `get_api_key(config)`: a non-empty CLAUDE_API_KEY in the environment is
      used, else the config's `claude_api_key` (None when absent or null); the
      chosen key must be non-empty and not the placeholder, else ValueError. */
  function GetApiKey(vars: map<string, string>, configKey: Option<string>): (r: Result<string, string>)
    ensures r.Ok? ==> ValidApiKey(r.value)
    ensures r.Err? ==> r.error == ApiKeyNotFound
    ensures ApiKeyVariable in vars && vars[ApiKeyVariable] != "" ==>
              r == if ValidApiKey(vars[ApiKeyVariable]) then Ok(vars[ApiKeyVariable]) else Err(ApiKeyNotFound)
    ensures !(ApiKeyVariable in vars && vars[ApiKeyVariable] != "") ==>
              (r.Ok? <==> configKey.Some? && ValidApiKey(configKey.value)) &&
              (r.Ok? ==> r.value == configKey.value)
  {
    var fromEnv := if ApiKeyVariable in vars then vars[ApiKeyVariable] else "";
    var key := if fromEnv != "" then Some(fromEnv) else configKey;
    if key.None? || key.value == "" || key.value == Placeholder then Err(ApiKeyNotFound)
    else Ok(key.value)
  }

  /** A placeholder left in the environment is not overridden by a good key in
      the config: the lookup fails. */
  lemma PlaceholderInEnvironmentMasksConfig(vars: map<string, string>, configKey: string)
    requires ApiKeyVariable in vars && vars[ApiKeyVariable] == Placeholder
    ensures GetApiKey(vars, Some(configKey)) == Err(ApiKeyNotFound)
  {
  }

  // ---------------------------------------------------------------- dispatch

  /** The suffix of a final path component: from its last `.`, when that `.`
      is neither its first nor its last character; otherwise empty. */
  function NameSuffix(name: string): (r: string)
    ensures r == [] || (2 <= |r| < |name| && r == name[|name| - |r|..] && r[0] == '.')
    ensures forall k :: 1 <= k < |r| ==> r[k] != '.'
  {
    var i := RFind(name, '.');
    if 0 < i < |name| - 1 then name[i..] else ""
  }

  /** `Path(path).suffix` */
  function Suffix(path: string): string
  {
    NameSuffix(Basename(path))
  }

  /** `detect_processor(path)`: the lower-cased suffix chooses the processor. */
  function DetectProcessor(path: string): (r: Result<Format, string>)
    ensures r == Ok(Pdf) <==> AsciiLower(Suffix(path)) == ".pdf"
    ensures r == Ok(Docx) <==> AsciiLower(Suffix(path)) == ".docx"
    ensures r == Ok(Text) <==> AsciiLower(Suffix(path)) == ".txt"
    ensures r.Err? ==> r.error == "Unsupported file type: " + AsciiLower(Suffix(path))
  {
    var ext := AsciiLower(Suffix(path));
    if ext == ".pdf" then Ok(Pdf)
    else if ext == ".docx" then Ok(Docx)
    else if ext == ".txt" then Ok(Text)
    else Err("Unsupported file type: " + ext)
  }

  /** The final component of `dir/name` is `name` when `name` has no `/`. */
  lemma BasenameOfJoin(dir: string, name: string)
    requires forall k :: 0 <= k < |name| ==> name[k] != '/'
    ensures Basename(dir + "/" + name) == name
  {
    var path := dir + "/" + name;
    assert path[|dir|] == '/';
    assert forall k :: |dir| + 1 <= k < |path| ==> path[k] == name[k - |dir| - 1];
    assert RFind(path, '/') == |dir|;
    assert path[|dir| + 1..] == name;
  }

  /** The suffix of `stem.ext`, for a non-empty stem and a non-empty
      extension free of dots, is `.ext`. */
  lemma NameSuffixOf(stem: string, ext: string)
    requires stem != [] && ext != []
    requires forall k :: 0 <= k < |ext| ==> ext[k] != '.'
    ensures NameSuffix(stem + "." + ext) == "." + ext
  {
    var name := stem + "." + ext;
    assert name[|stem|] == '.';
    assert forall k :: |stem| < k < |name| ==> name[k] == ext[k - |stem| - 1];
    assert RFind(name, '.') == |stem|;
    assert name[|stem|..] == "." + ext;
  }

  /** A file named `stem.ext` in any directory has the suffix `.ext`: for
      instance `reports/Annual.PDF` has the suffix `.PDF`. */
  lemma SuffixOfName(dir: string, stem: string, ext: string)
    requires stem != [] && ext != []
    requires forall k :: 0 <= k < |stem| ==> stem[k] != '/'
    requires forall k :: 0 <= k < |ext| ==> ext[k] != '/' && ext[k] != '.'
    ensures Suffix(dir + "/" + stem + "." + ext) == "." + ext
  {
    var name := stem + "." + ext;
    assert forall k :: 0 <= k < |name| ==> name[k] != '/' by {
      assert forall k :: 0 <= k < |stem| ==> name[k] == stem[k];
      assert forall k :: |stem| < k < |name| ==> name[k] == ext[k - |stem| - 1];
    }
    BasenameOfJoin(dir, name);
    assert dir + "/" + stem + "." + ext == dir + "/" + name;
    NameSuffixOf(stem, ext);
  }

  /** Upper-case extensions are accepted: the suffix is lower-cased before it
      is compared. */
  lemma UpperCaseSuffixAccepted(path: string)
    ensures Suffix(path) == ".PDF" ==> DetectProcessor(path) == Ok(Pdf)
    ensures Suffix(path) == ".DOCX" ==> DetectProcessor(path) == Ok(Docx)
    ensures Suffix(path) == ".TXT" ==> DetectProcessor(path) == Ok(Text)
  {
    assert AsciiLower(".PDF") == ".pdf";
    assert AsciiLower(".DOCX") == ".docx";
    assert AsciiLower(".TXT") == ".txt";
  }

  /** A final component without a dot has no suffix and is refused with an
      empty extension in the message. */
  lemma NoSuffixRefused(path: string)
    requires forall k :: 0 <= k < |Basename(path)| ==> Basename(path)[k] != '.'
    ensures DetectProcessor(path) == Err("Unsupported file type: ")
  {
    assert Suffix(path) == "";
    assert AsciiLower("") == "";
    assert "Unsupported file type: " + "" == "Unsupported file type: ";
  }

  // ---------------------------------------------------------------- assembly

  /** `len(structure.get('pages', structure.get('sections', [text])))` */
  function PageCount(structure: Structure, text: string): nat
  {
    match structure
    case Pages(pages) => |pages|
    case Sections(sections) => |sections|
    case FullText(_) => 1
  }

  /** The first page given to the extraction prompt: the first page when there
      are pages, otherwise the first 2000 characters of the text. */
  function FirstPage(structure: Structure, text: string): string
  {
    if structure.Pages? && structure.pages != [] then structure.pages[0] else Take(text, 2000)
  }

  /** The entries the chunks are made from: the pages, else the sections,
      else none. */
  function ChunkSource(structure: Structure): seq<string>
  {
    match structure
    case Pages(pages) => pages
    case Sections(sections) => sections
    case FullText(_) => []
  }

  /** One entry of `chunks`: `{'chunk_id': n, 'text': ..., 'source': {'page': n}}`. */
  datatype Chunk = Chunk(chunkId: nat, text: string, sourcePage: nat)

  /** The chunk list: entry i (from 0) becomes chunk number i + 1. */
  function Chunks(structure: Structure): (r: seq<Chunk>)
    ensures |r| == |ChunkSource(structure)|
    ensures forall i :: 0 <= i < |r| ==>
              r[i] == Chunk(i + 1, ChunkSource(structure)[i], i + 1)
  {
    var source := ChunkSource(structure);
    seq(|source|, i requires 0 <= i < |source| => Chunk(i + 1, source[i], i + 1))
  }

  /** The `for idx, page_text in enumerate(pages, 1)` loop. */
  method BuildChunks(structure: Structure) returns (chunks: seq<Chunk>)
    ensures chunks == Chunks(structure)
  {
    var pages := match structure
      case Pages(p) => p
      case Sections(s) => s
      case FullText(_) => [];
    chunks := [];
    var idx := 1;
    while idx <= |pages|
      invariant 1 <= idx <= |pages| + 1
      invariant |chunks| == idx - 1
      invariant forall i :: 0 <= i < idx - 1 ==> chunks[i] == Chunk(i + 1, pages[i], i + 1)
    {
      chunks := chunks + [Chunk(idx, pages[idx - 1], idx)];
      idx := idx + 1;
    }
  }

  /** The `llm_data` used when extraction raised ExtractionError: the raw text
      as markdown, the file name as title, and no country, region or partner. */
  function Fallback(text: string, filename: string): Json
  {
    JObj(map["llm_markdown" := JStr(text), "title" := JStr(filename),
             "country" := JNull, "region" := JNull, "partner_name" := JNull])
  }

  /** `llm_data, processing_ms` after the extraction step. */
  function LlmData(extraction: Result<(Json, nat), LlmError>, text: string, filename: string): (Json, nat)
  {
    match extraction
    case Ok(v) => v
    case Err(_) => (Fallback(text, filename), 0)
  }

  /** `not args.no_coverage and config.get('check_coverage', True)` */
  predicate CoverageGate(noCoverage: bool, checkCoverage: Option<Json>)
  {
    !noCoverage && Truthy(if checkCoverage.Some? then checkCoverage.value else JBool(true))
  }

  /** `coverage_score, coverage_detail`: null unless the check ran and returned;
      a returned value that is not a dict makes `.get` raise. */
  function CoverageFields(coverage: Option<Result<Json, LlmError>>): Result<(Json, Json), string>
  {
    match coverage
    case None => Ok((JNull, JNull))
    case Some(Err(_)) => Ok((JNull, JNull))
    case Some(Ok(JObj(fields))) => Ok((Get(fields, "score"), Get(fields, "text")))
    case Some(Ok(other)) => Err(NoGetAttribute(other))
  }

  /** The `document_data` dict (without its timestamp); `year` is present only
      when it was requested. */
  datatype DocumentRecord = DocumentRecord(
    filename: string,
    mimeType: string,
    sizeBytes: nat,
    pageCount: nat,
    tokenCount: nat,
    needsOcr: bool,
    title: Json,
    country: Json,
    region: Json,
    partnerName: Json,
    llmMarkdown: Json,
    processingMs: nat,
    coverageScore: Json,
    coverageDetail: Json,
    year: Option<Json>)

  /** The `document_data` dict: the file's facts, the metadata copied from
      `llm_data` (absent keys read as null), the coverage fields, and `year`
      only when requested. */
  function DocumentData(filename: string, doc: RawDocument, pageCount: nat, tokenCount: nat,
                        llmFields: map<string, Json>, processingMs: nat,
                        coverageScore: Json, coverageDetail: Json, includeYear: bool): DocumentRecord
  {
    DocumentRecord(
      filename, doc.profile.mimeType, doc.profile.size, pageCount, tokenCount, doc.needsOcr,
      Get(llmFields, "title"), Get(llmFields, "country"), Get(llmFields, "region"),
      Get(llmFields, "partner_name"), Get(llmFields, "llm_markdown"),
      processingMs, coverageScore, coverageDetail,
      if includeYear then Some(Get(llmFields, "year")) else None)
  }

  /** The keys of `config.json` the driver reads. */
  datatype Config = Config(
    claudeApiKey: Option<string>,
    claudeModel: string,
    claudeMaxTokens: int,
    retryAttempts: int,
    checkCoverage: Option<Json>)

  /** The command line: the input file, the config path and the two flags. */
  datatype Args = Args(inputFile: string, configPath: string, noCoverage: bool, includeYear: bool)

  /** Everything outside the program that a run depends on: which files exist,
      what `.env` holds, what `config.json` decodes to (or the decoder's error),
      the input's size, what each document library reads, what the API answers
      on each attempt of each call, `json.loads`, and the `\w` class. */
  datatype World = World(
    inputExists: bool,
    configExists: bool,
    envFile: Option<seq<string>>,
    config: Result<Config, string>,
    sizeBytes: nat,
    pdf: Option<PdfProcessor.PdfRead>,
    docx: Option<Result<seq<string>, string>>,
    textFile: Result<string, string>,
    extractionReplies: nat -> Reply,
    coverageReplies: nat -> Reply,
    parse: string -> Result<Json, string>,
    isWord: char -> bool)

  /** How a run ends: an error printed before any output is set up
      (`sys.exit(1)`), a run logged as FAILED with the exception's text, or
      the record and chunks written with status SUCCESS. */
  datatype RunOutcome =
    | ExitedEarly(message: string)
    | Failed(error: string)
    | Succeeded(record: DocumentRecord, chunks: seq<Chunk>)

  /** `processor.extract_text(args.input_file)` for the chosen processor. */
  function Extracted(format: Format, path: string, w: World): Result<RawDocument, string>
  {
    match format
    case Pdf => Ok(PdfProcessor.PdfDocument(path, w.sizeBytes, w.pdf))
    case Docx => DocxProcessor.DocxDocument(path, w.sizeBytes, w.docx)
    case Text => TextProcessor.ExtractText(path, w.sizeBytes, w.textFile)
  }

  /** `llm_data, processing_ms` for a run: the extraction's value, or the
      fallback. */
  function ExtractionOutcome(args: Args, config: Config, w: World, doc: RawDocument): (Json, nat)
  {
    LlmData(Retry(ExtractionAttempts(w.extractionReplies, w.parse), config.retryAttempts).result,
            doc.text, Basename(args.inputFile))
  }

  /** The coverage fields for a run (or the error of `.get` on a non-dict). */
  function CoverageOutcome(args: Args, config: Config, w: World): Result<(Json, Json), string>
  {
    CoverageFields(
      if CoverageGate(args.noCoverage, config.checkCoverage)
      then Some(Retry(CoverageAttempts(w.coverageReplies, w.parse), config.retryAttempts).result)
      else None)
  }

  /** The end of the run once `llm_data` is a dict and the coverage step is
      over. */
  function Assemble(args: Args, w: World, doc: RawDocument, llmFields: map<string, Json>, processingMs: nat,
                    coverage: Result<(Json, Json), string>): RunOutcome
  {
    match coverage
    case Err(e) => Failed(e)
    case Ok((score, detail)) =>
      var record := DocumentData(Basename(args.inputFile), doc, PageCount(doc.structure, doc.text),
                                 TokenCount(doc.text, w.isWord), llmFields, processingMs,
                                 score, detail, args.includeYear);
      Succeeded(record, Chunks(doc.structure))
  }

  /** The end of the run for whatever the extraction step produced (`llmData`,
      `processingMs`) and whatever the coverage step would produce: a
      non-object `llm_data` fails at its first `.get`, before coverage. */
  function Finish(args: Args, w: World, doc: RawDocument, llmData: Json, processingMs: nat,
                  coverage: Result<(Json, Json), string>): RunOutcome
  {
    match llmData
    case JObj(fields) => Assemble(args, w, doc, fields, processingMs, coverage)
    case _ => Failed(NoGetAttribute(llmData))
  }

  /** The rest of the run once the document is extracted. */
  function Complete(args: Args, config: Config, w: World, doc: RawDocument): RunOutcome
  {
    var (llmData, processingMs) := ExtractionOutcome(args, config, w, doc);
    Finish(args, w, doc, llmData, processingMs, CoverageOutcome(args, config, w))
  }

  /** The part of the run inside the outer `try`. */
  function Process(args: Args, config: Config, w: World): RunOutcome
  {
    match DetectProcessor(args.inputFile)
    case Err(e) => Failed(e)
    case Ok(format) =>
      match Extracted(format, args.inputFile, w)
      case Err(e) => Failed(e)
      case Ok(doc) => Complete(args, config, w, doc)
  }

  /** `main()`, from the environment it starts with. */
  function RunSpec(env: map<string, string>, args: Args, w: World): RunOutcome
  {
    if !w.inputExists then ExitedEarly("Error: Input file not found: " + args.inputFile)
    else if !w.configExists then ExitedEarly("Error: Config file not found: " + args.configPath)
    else
      match w.config
      case Err(e) => ExitedEarly("Error: " + e)
      case Ok(config) =>
        match GetApiKey(EnvLoad(env, w.envFile), config.claudeApiKey)
        case Err(e) => ExitedEarly("Error: " + e)
        case Ok(_) => Process(args, config, w)
  }

  /** The request every extraction attempt sends: the configured model and
      token limit, temperature 0, and the prompt built from the template the
      year flag selects, the first page and the whole text. */
  function ExtractionRequest(args: Args, config: Config, doc: RawDocument): Request
  {
    Request(config.claudeModel, config.claudeMaxTokens, 0,
            ExtractionPrompt(TemplateFor(args.includeYear), FirstPage(doc.structure, doc.text), doc.text))
  }

  /** The request every coverage attempt sends: the pages of the structure and
      `llm_data.get('llm_markdown', '')` as the content. */
  function CoverageRequest(config: Config, doc: RawDocument, llmFields: map<string, Json>): Request
  {
    Request(config.claudeModel, config.claudeMaxTokens, 0,
            CoveragePrompt(StructureText(doc.structure), GetOr(llmFields, "llm_markdown", JStr(""))))
  }

  /** The fields of a decoded object (none for any other value). */
  function FieldsOf(j: Json): map<string, Json>
  {
    if j.JObj? then j.fields else map[]
  }

  /** How many coverage calls the run makes: none when `llm_data` is not a
      dict (the run has already failed) or coverage is off. */
  function CoverageCalls(args: Args, config: Config, w: World, doc: RawDocument): nat
  {
    if ExtractionOutcome(args, config, w, doc).0.JObj? && CoverageGate(args.noCoverage, config.checkCoverage)
    then Retry(CoverageAttempts(w.coverageReplies, w.parse), config.retryAttempts).attempts
    else 0
  }

  /** The LLM calls of a run that reached the extracted document `doc`: one
      extraction request per extraction attempt, then one coverage request per
      coverage attempt, each carrying the prompt built from this document. */
  predicate CallsMade(args: Args, config: Config, w: World, doc: RawDocument,
                      extractionSent: seq<Request>, coverageSent: seq<Request>)
  {
    && |extractionSent| == Retry(ExtractionAttempts(w.extractionReplies, w.parse), config.retryAttempts).attempts
    && (forall k :: 0 <= k < |extractionSent| ==> extractionSent[k] == ExtractionRequest(args, config, doc))
    && |coverageSent| == CoverageCalls(args, config, w, doc)
    && (forall k :: 0 <= k < |coverageSent| ==>
          coverageSent[k] == CoverageRequest(config, doc, FieldsOf(ExtractionOutcome(args, config, w, doc).0)))
  }

  /** The configuration and the extracted document, when the run gets as far
      as calling the model: both files exist, the config decodes, a usable key
      is found, the extension is supported and the extraction succeeds. */
  function Reached(env: map<string, string>, args: Args, w: World): Option<(Config, RawDocument)>
  {
    if !w.inputExists || !w.configExists || w.config.Err? then None
    else if GetApiKey(EnvLoad(env, w.envFile), w.config.value.claudeApiKey).Err? then None
    else
      match DetectProcessor(args.inputFile)
      case Err(_) => None
      case Ok(format) =>
        match Extracted(format, args.inputFile, w)
        case Err(_) => None
        case Ok(doc) => Some((w.config.value, doc))
  }

  /** A run that reaches the model ends as the rest of the run from its
      document says; one that does not makes no call and does not succeed. */
  lemma ReachedRunCompletes(env: map<string, string>, args: Args, w: World)
    ensures Reached(env, args, w).Some? ==>
              RunSpec(env, args, w) == Complete(args, Reached(env, args, w).value.0, w, Reached(env, args, w).value.1)
    ensures Reached(env, args, w).None? ==> !RunSpec(env, args, w).Succeeded?
  {
  }

  /** `processor.extract_text(args.input_file)`, run through the chosen
      processor's own loop. */
  method ExtractDocument(format: Format, path: string, w: World) returns (extracted: Result<RawDocument, string>)
    ensures extracted == Extracted(format, path, w)
  {
    match format {
      case Pdf =>
        var doc := PdfProcessor.ExtractText(path, w.sizeBytes, w.pdf);
        extracted := Ok(doc);
      case Docx =>
        extracted := DocxProcessor.ExtractText(path, w.sizeBytes, w.docx);
      case Text =>
        extracted := TextProcessor.ExtractText(path, w.sizeBytes, w.textFile);
    }
  }

  /** The extraction step: `extract_with_claude`, or the fallback data when it
      raises ExtractionError. */
  method ExtractionStep(args: Args, config: Config, apiKey: string, w: World, doc: RawDocument)
    returns (llmData: Json, processingMs: nat, sent: seq<Request>)
    requires ValidApiKey(apiKey)
    ensures (llmData, processingMs) == ExtractionOutcome(args, config, w, doc)
    ensures |sent| == Retry(ExtractionAttempts(w.extractionReplies, w.parse), config.retryAttempts).attempts
    ensures forall k :: 0 <= k < |sent| ==> sent[k] == ExtractionRequest(args, config, doc)
  {
    var firstPage := FirstPage(doc.structure, doc.text);
    var extraction, requests, _ := ExtractWithClaude(doc.text, firstPage, apiKey, config.claudeModel,
                                              config.claudeMaxTokens, args.includeYear,
                                              config.retryAttempts, w.extractionReplies, w.parse);
    sent := requests;
    match extraction {
      case Ok((data, ms)) =>
        llmData, processingMs := data, ms;
      case Err(_) =>
        llmData, processingMs := Fallback(doc.text, Basename(args.inputFile)), 0;
    }
  }

  /** The coverage step: the score and detail, null unless the check is enabled
      and returns; a CoverageCheckError leaves them null. */
  method CoverageStep(args: Args, config: Config, apiKey: string, w: World, doc: RawDocument,
                      llmFields: map<string, Json>)
    returns (fields: Result<(Json, Json), string>, sent: seq<Request>)
    requires ValidApiKey(apiKey)
    ensures fields == CoverageOutcome(args, config, w)
    ensures !CoverageGate(args.noCoverage, config.checkCoverage) ==> sent == []
    ensures CoverageGate(args.noCoverage, config.checkCoverage) ==>
              |sent| == Retry(CoverageAttempts(w.coverageReplies, w.parse), config.retryAttempts).attempts
    ensures forall k :: 0 <= k < |sent| ==> sent[k] == CoverageRequest(config, doc, llmFields)
  {
    var coverageScore := JNull;
    var coverageDetail := JNull;
    sent := [];
    if !args.noCoverage && Truthy(if config.checkCoverage.Some? then config.checkCoverage.value else JBool(true)) {
      var coverage, requests, _ := CheckCoverage(doc.structure, GetOr(llmFields, "llm_markdown", JStr("")),
                                          apiKey, config.claudeModel, config.claudeMaxTokens,
                                          config.retryAttempts, w.coverageReplies, w.parse);
      sent := requests;
      if coverage.Ok? {
        if !coverage.value.JObj? {
          return Err(NoGetAttribute(coverage.value)), sent;
        }
        coverageScore := Get(coverage.value.fields, "score");
        coverageDetail := Get(coverage.value.fields, "text");
      }
    }
    fields := Ok((coverageScore, coverageDetail));
  }

  /** Building `document_data` and the chunk list, once the coverage step is
      over. */
  method AssembleRun(args: Args, w: World, doc: RawDocument, llmFields: map<string, Json>, processingMs: nat,
                     coverage: Result<(Json, Json), string>)
    returns (outcome: RunOutcome)
    ensures outcome == Assemble(args, w, doc, llmFields, processingMs, coverage)
  {
    if coverage.Err? {
      return Failed(coverage.error);
    }
    var (coverageScore, coverageDetail) := coverage.value;
    var pageCount := PageCount(doc.structure, doc.text);
    var tokenCount := TokenCount(doc.text, w.isWord);
    var record := DocumentData(Basename(args.inputFile), doc, pageCount, tokenCount, llmFields, processingMs,
                               coverageScore, coverageDetail, args.includeYear);
    var chunks := BuildChunks(doc.structure);
    outcome := Succeeded(record, chunks);
  }

  /** A reply that decodes to something other than an object ends the run:
      `llm_data.get` raises AttributeError, which only the outer `try` catches. */
  lemma NonObjectDataFails(args: Args, config: Config, w: World, doc: RawDocument, llmData: Json, processingMs: nat)
    requires (llmData, processingMs) == ExtractionOutcome(args, config, w, doc)
    requires !llmData.JObj?
    ensures Complete(args, config, w, doc) == Failed(NoGetAttribute(llmData))
  {
  }

  /** With an object as `llm_data`, the run goes on to the coverage step and
      the assembly. */
  lemma ObjectDataAssembled(args: Args, config: Config, w: World, doc: RawDocument, llmData: Json, processingMs: nat)
    requires (llmData, processingMs) == ExtractionOutcome(args, config, w, doc)
    requires llmData.JObj?
    ensures Complete(args, config, w, doc) ==
            Assemble(args, w, doc, llmData.fields, processingMs, CoverageOutcome(args, config, w))
  {
  }

  /** From the extracted document to the record and chunks. */
  method CompleteRun(args: Args, config: Config, apiKey: string, w: World, doc: RawDocument)
    returns (outcome: RunOutcome, extractionSent: seq<Request>, coverageSent: seq<Request>)
    requires ValidApiKey(apiKey)
    ensures outcome == Complete(args, config, w, doc)
    ensures CallsMade(args, config, w, doc, extractionSent, coverageSent)
  {
    var llmData, processingMs;
    llmData, processingMs, extractionSent := ExtractionStep(args, config, apiKey, w, doc);
    if !llmData.JObj? {
      NonObjectDataFails(args, config, w, doc, llmData, processingMs);
      return Failed(NoGetAttribute(llmData)), extractionSent, [];
    }
    ObjectDataAssembled(args, config, w, doc, llmData, processingMs);
    var coverage;
    coverage, coverageSent := CoverageStep(args, config, apiKey, w, doc, llmData.fields);
    outcome := AssembleRun(args, w, doc, llmData.fields, processingMs, coverage);
  }

  /** The body of the outer `try`, once the key is known to be usable. */
  method ProcessDocument(args: Args, config: Config, apiKey: string, w: World)
    returns (outcome: RunOutcome, extractionSent: seq<Request>, coverageSent: seq<Request>)
    requires ValidApiKey(apiKey)
    ensures outcome == Process(args, config, w)
    ensures DetectProcessor(args.inputFile).Err? ==> extractionSent == [] && coverageSent == []
    ensures DetectProcessor(args.inputFile).Ok? ==>
              var extracted := Extracted(DetectProcessor(args.inputFile).value, args.inputFile, w);
              && (extracted.Err? ==> extractionSent == [] && coverageSent == [])
              && (extracted.Ok? ==> CallsMade(args, config, w, extracted.value, extractionSent, coverageSent))
  {
    var format := DetectProcessor(args.inputFile);
    if format.Err? {
      return Failed(format.error), [], [];
    }
    var extracted := ExtractDocument(format.value, args.inputFile, w);
    if extracted.Err? {
      return Failed(extracted.error), [], [];
    }
    outcome, extractionSent, coverageSent := CompleteRun(args, config, apiKey, w, extracted.value);
  }

  /** `main()`: `env` is `os.environ`, which `.env` updates once both input
      files are found. */
  method Run(env: Environment, args: Args, w: World)
    returns (outcome: RunOutcome, extractionSent: seq<Request>, coverageSent: seq<Request>)
    modifies env
    ensures outcome == RunSpec(old(env.vars), args, w)
    ensures env.vars == if w.inputExists && w.configExists then EnvLoad(old(env.vars), w.envFile) else old(env.vars)
    ensures Reached(old(env.vars), args, w).None? ==> extractionSent == [] && coverageSent == []
    ensures Reached(old(env.vars), args, w).Some? ==>
              var (config, doc) := Reached(old(env.vars), args, w).value;
              CallsMade(args, config, w, doc, extractionSent, coverageSent)
  {
    if !w.inputExists {
      return ExitedEarly("Error: Input file not found: " + args.inputFile), [], [];
    }
    if !w.configExists {
      return ExitedEarly("Error: Config file not found: " + args.configPath), [], [];
    }
    env.LoadEnvFile(w.envFile);
    if w.config.Err? {
      return ExitedEarly("Error: " + w.config.error), [], [];
    }
    var config := w.config.value;
    var apiKey := GetApiKey(env.vars, config.claudeApiKey);
    if apiKey.Err? {
      return ExitedEarly("Error: " + apiKey.error), [], [];
    }
    outcome, extractionSent, coverageSent := ProcessDocument(args, config, apiKey.value, w);
  }

  // ---------------------------------------------------------------- properties of a run

  /** When extraction exhausts its attempts, the run still succeeds unless the
      coverage step fails: the record holds the raw text as markdown, the file
      name as title, no country, region or partner, zero milliseconds and the
      coverage step's fields; the chunks follow the structure. */
  lemma FallbackRun(args: Args, config: Config, w: World, doc: RawDocument)
    requires Retry(ExtractionAttempts(w.extractionReplies, w.parse), config.retryAttempts).result.Err?
    requires CoverageOutcome(args, config, w).Ok?
    ensures var outcome := Complete(args, config, w, doc);
            && outcome.Succeeded?
            && outcome.record.llmMarkdown == JStr(doc.text)
            && outcome.record.title == JStr(Basename(args.inputFile))
            && outcome.record.country == JNull && outcome.record.region == JNull
            && outcome.record.partnerName == JNull
            && outcome.record.processingMs == 0
            && outcome.record.coverageScore == CoverageOutcome(args, config, w).value.0
            && outcome.record.coverageDetail == CoverageOutcome(args, config, w).value.1
            && outcome.chunks == Chunks(doc.structure)
  {
    var fallback := Fallback(doc.text, Basename(args.inputFile));
    assert ExtractionOutcome(args, config, w, doc) == (fallback, 0);
    ObjectDataAssembled(args, config, w, doc, fallback, 0);
  }

  /** A coverage check that raises CoverageCheckError (an invalid key cannot
      reach it; exhausted attempts can) leaves the score and detail null, and
      the run goes on. */
  lemma CoverageErrorLeavesNull(args: Args, config: Config, w: World)
    requires CoverageGate(args.noCoverage, config.checkCoverage)
    requires Retry(CoverageAttempts(w.coverageReplies, w.parse), config.retryAttempts).result.Err?
    ensures CoverageOutcome(args, config, w) == Ok((JNull, JNull))
  {
  }

  /** With coverage switched off, by the flag or by a falsy `check_coverage`,
      the score and detail are null and no coverage call is made. */
  lemma CoverageOffLeavesNull(args: Args, config: Config, w: World, doc: RawDocument)
    requires !CoverageGate(args.noCoverage, config.checkCoverage)
    ensures CoverageOutcome(args, config, w) == Ok((JNull, JNull))
    ensures CoverageCalls(args, config, w, doc) == 0
  {
  }

  /** The record has a `year` entry exactly when the year was requested, and
      then it is `llm_data.get('year')`. */
  lemma YearOnlyWhenRequested(args: Args, w: World, doc: RawDocument, llmData: Json, processingMs: nat,
                              coverage: Result<(Json, Json), string>)
    requires Finish(args, w, doc, llmData, processingMs, coverage).Succeeded?
    ensures var record := Finish(args, w, doc, llmData, processingMs, coverage).record;
            && llmData.JObj?
            && (record.year.Some? <==> args.includeYear)
            && (args.includeYear ==> record.year == Some(Get(llmData.fields, "year")))
  {
  }

  /** The metadata fields are copied from `llm_data` (a missing key gives
      null), together with the extraction's milliseconds. */
  lemma RecordCopiesLlmData(args: Args, w: World, doc: RawDocument, llmData: Json, processingMs: nat,
                            coverage: Result<(Json, Json), string>)
    requires Finish(args, w, doc, llmData, processingMs, coverage).Succeeded?
    ensures var record := Finish(args, w, doc, llmData, processingMs, coverage).record;
            && llmData.JObj?
            && record.title == Get(llmData.fields, "title")
            && record.country == Get(llmData.fields, "country")
            && record.region == Get(llmData.fields, "region")
            && record.partnerName == Get(llmData.fields, "partner_name")
            && record.llmMarkdown == Get(llmData.fields, "llm_markdown")
            && record.processingMs == processingMs
  {
  }

  /** The file facts of the record come from the extracted document. */
  lemma RecordDescribesFile(args: Args, w: World, doc: RawDocument, llmData: Json, processingMs: nat,
                            coverage: Result<(Json, Json), string>)
    requires Finish(args, w, doc, llmData, processingMs, coverage).Succeeded?
    ensures var record := Finish(args, w, doc, llmData, processingMs, coverage).record;
            && record.filename == Basename(args.inputFile)
            && record.mimeType == doc.profile.mimeType && record.sizeBytes == doc.profile.size
            && record.pageCount == PageCount(doc.structure, doc.text)
            && record.tokenCount == TokenCount(doc.text, w.isWord)
            && record.needsOcr == doc.needsOcr
  {
  }

  /** A run that succeeds carries the coverage step's fields; a failing
      coverage step (a non-dict check result) fails the run with its error. */
  lemma RecordCarriesCoverage(args: Args, w: World, doc: RawDocument, llmData: Json, processingMs: nat,
                              coverage: Result<(Json, Json), string>)
    requires llmData.JObj?
    ensures var outcome := Finish(args, w, doc, llmData, processingMs, coverage);
            && (coverage.Ok? <==> outcome.Succeeded?)
            && (coverage.Ok? ==> outcome.record.coverageScore == coverage.value.0 &&
                                 outcome.record.coverageDetail == coverage.value.1)
            && (coverage.Err? ==> outcome == Failed(coverage.error))
  {
  }

  /** The coverage fields are null unless coverage is enabled and the check
      returned a dict, whose `score` and `text` they then are; a check that
      returned anything else fails the run. */
  lemma CoverageFieldsOnlyFromCheck(args: Args, config: Config, w: World, score: Json, detail: Json)
    requires CoverageOutcome(args, config, w) == Ok((score, detail))
    requires score != JNull || detail != JNull
    ensures var check := Retry(CoverageAttempts(w.coverageReplies, w.parse), config.retryAttempts).result;
            && CoverageGate(args.noCoverage, config.checkCoverage)
            && check.Ok? && check.value.JObj?
            && score == Get(check.value.fields, "score")
            && detail == Get(check.value.fields, "text")
  {
  }

  /** A coverage check that returns something other than a dict fails the run
      (its `.get` raises), even though a CoverageCheckError would not. */
  lemma NonObjectCoverageFails(args: Args, config: Config, w: World)
    requires CoverageGate(args.noCoverage, config.checkCoverage)
    requires var check := Retry(CoverageAttempts(w.coverageReplies, w.parse), config.retryAttempts).result;
             check.Ok? && !check.value.JObj?
    ensures CoverageOutcome(args, config, w) ==
            Err(NoGetAttribute(Retry(CoverageAttempts(w.coverageReplies, w.parse), config.retryAttempts).result.value))
  {
  }

  /** A successful run's chunks are numbered 1, 2, ... with the page number
      equal to the chunk number, one per page (or section), in order. */
  lemma ChunksNumberedFromOne(args: Args, w: World, doc: RawDocument, llmData: Json, processingMs: nat,
                              coverage: Result<(Json, Json), string>)
    requires Finish(args, w, doc, llmData, processingMs, coverage).Succeeded?
    ensures var chunks := Finish(args, w, doc, llmData, processingMs, coverage).chunks;
            && |chunks| == |ChunkSource(doc.structure)|
            && forall i :: 0 <= i < |chunks| ==>
                 chunks[i].chunkId == i + 1 && chunks[i].sourcePage == i + 1 &&
                 chunks[i].text == ChunkSource(doc.structure)[i]
  {
  }

  /** A plain-text file counts as one page but yields no chunks, and its first
      page is the first 2000 characters. */
  lemma TextFileCounts(path: string, w: World)
    requires Extracted(Text, path, w).Ok?
    ensures var doc := Extracted(Text, path, w).value;
            && PageCount(doc.structure, doc.text) == 1
            && Chunks(doc.structure) == []
            && FirstPage(doc.structure, doc.text) == Take(doc.text, 2000)
  {
  }

  /** A PDF read through the library counts one page and one chunk per page
      read, and its first page is the first page's text. */
  lemma PdfCounts(path: string, w: World, read: PdfProcessor.PdfRead)
    requires w.pdf == Some(read)
    ensures var doc := Extracted(Pdf, path, w).value;
            && PageCount(doc.structure, doc.text) == |read.pageTexts|
            && |Chunks(doc.structure)| == |read.pageTexts|
            && (forall i :: 0 <= i < |read.pageTexts| ==>
                  Chunks(doc.structure)[i].text == PdfProcessor.OrEmpty(read.pageTexts[i]))
            && (read.pageTexts != [] ==>
                  FirstPage(doc.structure, doc.text) == PdfProcessor.OrEmpty(read.pageTexts[0]))
  {
  }

  /** A DOCX counts its paragraphs as pages and chunks, but its first page is
      a 2000-character prefix of the text, not the first paragraph. */
  lemma DocxCounts(path: string, w: World, paragraphs: seq<string>)
    requires w.docx == Some(Ok(paragraphs))
    ensures var doc := Extracted(Docx, path, w).value;
            && PageCount(doc.structure, doc.text) == |paragraphs|
            && |Chunks(doc.structure)| == |paragraphs|
            && FirstPage(doc.structure, doc.text) == Take(Lines(paragraphs), 2000)
  {
  }

  /** The retrieval chunks `prepare_for_processing` gives for PDF pages and
      DOCX sections are the texts of the chunks `main` writes; for plain text
      it gives the whole text as one chunk, where `main` writes none. */
  lemma PreparedChunksAreChunkTexts(text: string, structure: Structure)
    ensures structure.Pages? ==>
              var rag := PdfProcessor.PrepareForProcessing(text, structure).ragChunks;
              |rag| == |Chunks(structure)| && forall i :: 0 <= i < |rag| ==> rag[i] == Chunks(structure)[i].text
    ensures structure.Sections? ==>
              var rag := DocxProcessor.PrepareForProcessing(text, structure).ragChunks;
              |rag| == |Chunks(structure)| && forall i :: 0 <= i < |rag| ==> rag[i] == Chunks(structure)[i].text
    ensures structure.FullText? ==>
              TextProcessor.PrepareForProcessing(text, structure).ragChunks == [text] && Chunks(structure) == []
  {
  }

  /** Ways the run stops before any output: a missing input or config file, an
      undecodable config, or no usable API key. */
  lemma EarlyExits(env: map<string, string>, args: Args, w: World)
    ensures !w.inputExists ==> RunSpec(env, args, w) == ExitedEarly("Error: Input file not found: " + args.inputFile)
    ensures w.inputExists && !w.configExists ==>
              RunSpec(env, args, w) == ExitedEarly("Error: Config file not found: " + args.configPath)
    ensures w.inputExists && w.configExists && w.config.Err? ==>
              RunSpec(env, args, w) == ExitedEarly("Error: " + w.config.error)
    ensures w.inputExists && w.configExists && w.config.Ok? &&
            GetApiKey(EnvLoad(env, w.envFile), w.config.value.claudeApiKey).Err? ==>
              RunSpec(env, args, w) == ExitedEarly("Error: " + ApiKeyNotFound)
  {
  }

  /** A usable key set by the last CLAUDE_API_KEY line of `.env` is the key the
      run uses, whatever the config says. */
  lemma DotEnvKeyUsed(env: map<string, string>, lines: seq<string>, i: nat, configKey: Option<string>)
    requires i < |lines| && Sets(ParseEnvLine(lines[i]), ApiKeyVariable)
    requires forall j :: i < j < |lines| ==> !Sets(ParseEnvLine(lines[j]), ApiKeyVariable)
    requires ValidApiKey(ParseEnvLine(lines[i]).value)
    ensures GetApiKey(EnvLoad(env, Some(lines)), configKey) == Ok(ParseEnvLine(lines[i]).value)
  {
    var entries := ParseEnvFile(lines);
    MapAt(ParseEnvLine, lines);
    EnvLastAssignmentWins(env, entries, ApiKeyVariable, i);
  }

  /** The successful run reaches the assembly exactly when the input is a
      supported, readable document and a usable key was found. */
  lemma SuccessNeedsKeyAndDocument(env: map<string, string>, args: Args, w: World)
    requires RunSpec(env, args, w).Succeeded?
    ensures w.inputExists && w.configExists && w.config.Ok?
    ensures GetApiKey(EnvLoad(env, w.envFile), w.config.value.claudeApiKey).Ok?
    ensures DetectProcessor(args.inputFile).Ok?
    ensures Extracted(DetectProcessor(args.inputFile).value, args.inputFile, w).Ok?
  {
  }
}
