/** llm/coverage_checker.py: asks the model how much of the document the
    extracted markdown covers and reads back its verdict. */
module CoverageChecker {

  import opened Common
  import opened Strings
  import opened Document
  import opened Llm
  import opened RetryPolicy

  /** `' '.join(structure.get('pages', []))`: the pages joined by spaces; a
      structure without pages contributes nothing. */
  function StructureText(structure: Structure): (r: string)
    ensures !structure.Pages? ==> r == ""
    ensures structure.Pages? && |structure.pages| == 1 ==> r == structure.pages[0]
  {
    match structure
    case Pages(pages) => Join(" ", pages)
    case _ => ""
  }

  /** Each further page is added after a single space, so the text has the
      pages' total length plus one space between each consecutive pair. */
  lemma StructureTextPages(pages: seq<string>, page: string)
    requires pages != []
    ensures StructureText(Pages(pages + [page])) == StructureText(Pages(pages)) + " " + page
    ensures |StructureText(Pages(pages))| == TotalLength(pages) + |pages| - 1
  {
    JoinSnoc(" ", pages, page);
    JoinLength(" ", pages);
  }

  /** The dict returned when the reply holds no `{`...`}` span: no score, and
      the raw reply as the text. */
  function SoftFail(raw: string): (r: Json)
    ensures r.JObj? && r.fields.Keys == {"score", "text"}
    ensures r.fields["score"] == JNull && r.fields["text"] == JStr(raw)
  {
    JObj(map["score" := JNull, "text" := JStr(raw)])
  }

  /** One attempt of `check_coverage`'s loop. A span that does not decode
      raises inside the `try`, so it is recorded as an unexpected error and
      retried; a reply without a span ends the loop with the soft failure. */
  function CoverageAttempt(reply: Reply, parse: string -> Result<Json, string>): Result<Json, string>
  {
    match reply
    case ApiError(m) => Err("Claude API error: " + m)
    case OtherError(m) => Err("Unexpected error: " + m)
    case Response(raw, _) => Verdict(raw, parse)
  }

  /** What a reply's text yields: its decoded span, the soft failure when it
      has no span, or the decoder's error as an unexpected error. */
  function Verdict(raw: string, parse: string -> Result<Json, string>): Result<Json, string>
  {
    match BraceSpan(raw)
    case None => Ok(SoftFail(raw))
    case Some(span) =>
      match parse(span)
      case Ok(data) => Ok(data)
      case Err(e) => Err("Unexpected error: " + e)
  }

  /** The attempts of the loop, indexed from 0. */
  function CoverageAttempts(reply: nat -> Reply, parse: string -> Result<Json, string>): nat -> Result<Json, string>
  {
    (i: nat) => CoverageAttempt(reply(i), parse)
  }

  /** The body of the `try` once the reply's text is in hand: cut out the span
      from the first `{` to the last `}` and decode it, or give the soft
      failure when there is no such span. */
  method ReadVerdict(raw: string, parse: string -> Result<Json, string>) returns (r: Result<Json, string>)
    ensures r == Verdict(raw, parse)
  {
    var start := Find(raw, '{');
    var end := RFind(raw, '}') + 1;
    assert BraceSpan(raw) == if start >= 0 && end > start then Some(raw[start..end]) else None;
    if start >= 0 && end > start {
      match parse(raw[start..end]) {
        case Ok(data) =>
          r := Ok(data);
        case Err(e) =>
          r := Err("Unexpected error: " + e);
      }
    } else {
      r := Ok(SoftFail(raw));
    }
  }

  /** One pass through the `try` of the loop: the value returned, or the
      `last_error` recorded by the `except` clauses. */
  method CheckOnce(reply: Reply, parse: string -> Result<Json, string>) returns (outcome: Result<Json, string>)
    ensures outcome == CoverageAttempt(reply, parse)
  {
    match reply {
      case ApiError(m) =>
        outcome := Err("Claude API error: " + m);
      case OtherError(m) =>
        outcome := Err("Unexpected error: " + m);
      case Response(raw, _) =>
        outcome := ReadVerdict(raw, parse);
    }
  }

  /** `check_coverage`. `content` is the value passed as the markdown to judge;
      `sent` lists the requests issued and `sleeps` the delays requested. */
  method CheckCoverage(structure: Structure, content: Json, apiKey: string, model: string,
                       maxTokens: int, retryAttempts: int,
                       reply: nat -> Reply, parse: string -> Result<Json, string>)
    returns (result: Result<Json, LlmError>, sent: seq<Request>, sleeps: seq<nat>)
    ensures !ValidApiKey(apiKey) ==> result == Err(InvalidApiKey) && sent == [] && sleeps == []
    ensures ValidApiKey(apiKey) ==>
              var run := Retry(CoverageAttempts(reply, parse), retryAttempts);
              result == run.result && |sent| == run.attempts && sleeps == run.sleeps
    ensures forall k :: 0 <= k < |sent| ==>
              sent[k] == Request(model, maxTokens, 0, CoveragePrompt(StructureText(structure), content))
  {
    if apiKey == "" || apiKey == Placeholder {
      return Err(InvalidApiKey), [], [];
    }
    var structureText := StructureText(structure);
    var request := Request(model, maxTokens, 0, CoveragePrompt(structureText, content));
    ghost var attempts := CoverageAttempts(reply, parse);
    sent, sleeps := [], [];
    var lastError: Option<string> := None;
    var attempt: nat := 0;
    while attempt <= retryAttempts
      invariant |sent| == attempt
      invariant forall k :: 0 <= k < |sent| ==> sent[k] == request
      invariant var whole := Retry(attempts, retryAttempts);
                var rest := RetryFrom(attempts, retryAttempts, attempt, lastError);
                whole.result == rest.result && whole.attempts == rest.attempts &&
                whole.sleeps == sleeps + rest.sleeps
      decreases retryAttempts + 1 - attempt
    {
      sent := sent + [request];
      var outcome := CheckOnce(reply(attempt), parse);
      if outcome.Ok? {
        RetryStepSucceeded(attempts, retryAttempts, attempt, lastError, outcome.value);
        assert sleeps + [] == sleeps;
        return Ok(outcome.value), sent, sleeps;
      }
      var error := outcome.error;
      RetryStepFailed(attempts, retryAttempts, attempt, lastError, sleeps, error);
      lastError := Some(error);
      if attempt < retryAttempts {
        sleeps := sleeps + [Pow2(attempt)];
      } else {
        assert sleeps + [] == sleeps;
      }
      attempt := attempt + 1;
    }
    result := Err(Exhausted(retryAttempts + 1, lastError));
  }

  /** A first reply without any `{`...`}` span ends the check at once: one
      request, no sleep, and the soft failure carrying the reply. */
  lemma SpanlessReplyEndsCheck(reply: nat -> Reply, parse: string -> Result<Json, string>, retryAttempts: int)
    requires retryAttempts >= 0
    requires reply(0).Response? && BraceSpan(reply(0).text).None?
    ensures Retry(CoverageAttempts(reply, parse), retryAttempts) ==
            Run(Ok(SoftFail(reply(0).text)), 1, [])
  {
  }

  /** A span that does not decode is retried: with one retry allowed and a
      second reply that decodes, the check sends two requests, sleeps one
      second, and returns the second reply's object. */
  lemma UndecodableSpanIsRetried(reply: nat -> Reply, parse: string -> Result<Json, string>)
    requires reply(0).Response? && BraceSpan(reply(0).text).Some?
    requires parse(BraceSpan(reply(0).text).value).Err?
    requires reply(1).Response? && BraceSpan(reply(1).text).Some?
    requires parse(BraceSpan(reply(1).text).value).Ok?
    ensures Retry(CoverageAttempts(reply, parse), 1) ==
            Run(Ok(parse(BraceSpan(reply(1).text).value).value), 2, [1])
  {
    var attempts := CoverageAttempts(reply, parse);
    assert attempts(0).Err?;
    assert attempts(1).Ok?;
    assert RetryFrom(attempts, 1, 1, Some(attempts(0).error)).sleeps == [];
  }

  /** Whatever the check returns successfully is a decoded span of some reply or
      the soft failure for one; it is not checked to be an object. */
  lemma CheckResultOrigin(reply: nat -> Reply, parse: string -> Result<Json, string>, retryAttempts: int)
    requires Retry(CoverageAttempts(reply, parse), retryAttempts).result.Ok?
    ensures var run := Retry(CoverageAttempts(reply, parse), retryAttempts);
            run.attempts >= 1 &&
            var last := reply(run.attempts - 1);
            && last.Response?
            && (|| (BraceSpan(last.text).None? && run.result.value == SoftFail(last.text))
                || (BraceSpan(last.text).Some? && parse(BraceSpan(last.text).value) == Ok(run.result.value)))
  {
    RetryFirstSuccess(CoverageAttempts(reply, parse), retryAttempts);
  }
}
