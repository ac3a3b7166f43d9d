/** llm/claude_extractor.py: the tolerant reading of the model's reply and the
    retrying extraction call. `parse` stands for `json.loads`, as a function
    from text to a decoded value or the decoder's error message. */
module ClaudeExtractor {

  import opened Common
  import opened Strings
  import opened Llm
  import opened RetryPolicy

  const Fence := "```"

  /** `re.sub(r'^```[a-zA-Z]*\n', '', s)`: drop an opening fence, its optional
      language tag of ASCII letters and the newline after it. */
  function RemoveOpeningFence(s: string): (r: string)
    ensures !StartsWith(s, Fence) ==> r == s
    ensures StartsWith(s, Fence) ==>
              var k := 3 + PrefixRun(s[3..], IsAsciiLetter);
              && (k < |s| && s[k] == '\n' ==> r == s[k + 1..])
              && (!(k < |s| && s[k] == '\n') ==> r == s)
  {
    if StartsWith(s, Fence) then
      var k := 3 + PrefixRun(s[3..], IsAsciiLetter);
      if k < |s| && s[k] == '\n' then s[k + 1..] else s
    else s
  }

  /** `re.sub(r'```$', '', s)` once `s.endswith('```')` holds: drop the closing
      fence. */
  function RemoveClosingFence(s: string): (r: string)
    ensures EndsWith(s, Fence) ==> r + Fence == s
    ensures !EndsWith(s, Fence) ==> r == s
  {
    if EndsWith(s, Fence) then s[..|s| - 3] else s
  }

  /** The second strategy's candidate text: present only when the stripped
      reply starts with a fence; the fences are removed and the rest stripped. */
  function Unfence(data: string): (r: Option<string>)
    ensures r.Some? <==> StartsWith(Strip(data), Fence)
    ensures r.Some? ==> IsStripped(r.value)
  {
    var t := Strip(data);
    if StartsWith(t, Fence) then Some(Strip(RemoveClosingFence(RemoveOpeningFence(t)))) else None
  }

  /** The message of the ExtractionError raised when no strategy works. */
  function ParseFailureMessage(data: string): string
  {
    "Failed to parse JSON from response: " + Take(data, 200)
  }

  /** `parse_llm_json`: the reply as it stands, else its fenced body, else its
      `{`...`}` span (the regular expression `\{[\s\S]*\}` finds exactly the
      text from the first `{` to the last `}` after it). */
  function ParseLlmJson(data: string, parse: string -> Result<Json, string>): Result<Json, string>
  {
    if parse(data).Ok? then parse(data)
    else
      var fenced := Unfence(data);
      if fenced.Some? && parse(fenced.value).Ok? then parse(fenced.value)
      else
        var span := BraceSpan(data);
        if span.Some? && parse(span.value).Ok? then parse(span.value)
        else Err(ParseFailureMessage(data))
  }

  /** The stages are tried in order: the reply as it stands, then its fenced
      body, then its span, and the first that decodes gives the result; any
      value returned is one of these decodings; parsing fails exactly when all
      three fail, and then with the message quoting the reply. */
  lemma ParseLlmJsonStages(data: string, parse: string -> Result<Json, string>)
    ensures var r := ParseLlmJson(data, parse);
            && (parse(data).Ok? ==> r == parse(data))
            && (parse(data).Err? && Unfence(data).Some? && parse(Unfence(data).value).Ok? ==>
                  r == parse(Unfence(data).value))
            && (parse(data).Err? && (Unfence(data).None? || parse(Unfence(data).value).Err?) &&
                BraceSpan(data).Some? && parse(BraceSpan(data).value).Ok? ==>
                  r == parse(BraceSpan(data).value))
            && (r.Ok? ==>
                  || r == parse(data)
                  || (Unfence(data).Some? && r == parse(Unfence(data).value))
                  || (BraceSpan(data).Some? && r == parse(BraceSpan(data).value)))
            && (r.Err? <==>
                  && parse(data).Err?
                  && (Unfence(data).None? || parse(Unfence(data).value).Err?)
                  && (BraceSpan(data).None? || parse(BraceSpan(data).value).Err?))
            && (r.Err? ==> r.error == ParseFailureMessage(data))
  {
  }

  /** The opening fence, its language tag and the newline go, and nothing else. */
  lemma OpeningFenceRemoved(lang: string, rest: string)
    requires forall i :: 0 <= i < |lang| ==> IsAsciiLetter(lang[i])
    ensures RemoveOpeningFence(Fence + lang + "\n" + rest) == rest
  {
    var f := Fence + lang + "\n" + rest;
    assert f[..3] == Fence;
    var tail := f[3..];
    assert tail == lang + "\n" + rest;
    assert tail[|lang|] == '\n';
    PrefixRunIs(tail, IsAsciiLetter, |lang|);
    assert f[3 + |lang|] == '\n';
    assert f[3 + |lang| + 1..] == rest;
  }

  /** A reply fenced as ```` ```lang ````, newline, body, newline, ```` ``` ````
      (with any whitespace around it) gives back the body, stripped. */
  lemma FencedReplyUnfences(w1: string, lang: string, body: string, w2: string)
    requires Blank(w1) && Blank(w2)
    requires forall i :: 0 <= i < |lang| ==> IsAsciiLetter(lang[i])
    ensures Unfence(w1 + Fence + lang + "\n" + body + "\n" + Fence + w2) == Some(Strip(body))
  {
    FencedReplyStrips(w1, lang, body, w2);
    FenceBlockUnfences(lang, body);
  }

  /** The whitespace around a fenced block is what the reply's strip removes. */
  lemma FencedReplyStrips(w1: string, lang: string, body: string, w2: string)
    requires Blank(w1) && Blank(w2)
    ensures Strip(w1 + Fence + lang + "\n" + body + "\n" + Fence + w2) ==
            Fence + lang + "\n" + body + "\n" + Fence
  {
    var f := Fence + lang + "\n" + body + "\n" + Fence;
    assert w1 + Fence + lang + "\n" + body + "\n" + Fence + w2 == w1 + f + w2;
    assert f[0] == '`' && f[|f| - 1] == '`';
    StripPadded(w1, f, w2);
  }

  /** Inside the block, the fences, the tag and the newlines go, and the body
      is stripped. */
  lemma FenceBlockUnfences(lang: string, body: string)
    requires forall i :: 0 <= i < |lang| ==> IsAsciiLetter(lang[i])
    ensures var f := Fence + lang + "\n" + body + "\n" + Fence;
            StartsWith(f, Fence) && Strip(RemoveClosingFence(RemoveOpeningFence(f))) == Strip(body)
  {
    var closed := body + "\n" + Fence;
    var f := Fence + lang + "\n" + body + "\n" + Fence;
    assert f == Fence + lang + "\n" + closed;
    assert f[..3] == Fence;
    OpeningFenceRemoved(lang, closed);
    var rest := RemoveOpeningFence(f);
    assert rest == body + "\n" + Fence;
    ClosingFenceRemoved(body + "\n");
    var unfenced := RemoveClosingFence(rest);
    assert unfenced == [] + body + "\n";
    StripBlankPadding([], body, "\n");
  }

  /** The closing fence goes, and nothing else. */
  lemma ClosingFenceRemoved(s: string)
    ensures RemoveClosingFence(s + Fence) == s
  {
    var closed := s + Fence;
    assert closed[|closed| - 3..] == Fence;
  }

  /** When such a reply is not JSON as a whole, its stripped body's decoding
      is the result. */
  lemma FencedReplyParses(w1: string, lang: string, body: string, w2: string,
                          parse: string -> Result<Json, string>)
    requires Blank(w1) && Blank(w2)
    requires forall i :: 0 <= i < |lang| ==> IsAsciiLetter(lang[i])
    requires parse(w1 + Fence + lang + "\n" + body + "\n" + Fence + w2).Err?
    requires parse(Strip(body)).Ok?
    ensures ParseLlmJson(w1 + Fence + lang + "\n" + body + "\n" + Fence + w2, parse) == parse(Strip(body))
  {
    FencedReplyUnfences(w1, lang, body, w2);
  }

  /** A JSON object surrounded by prose that holds no `{` before it and no `}`
      after it is what the last strategy cuts out: `prefix {"a":1} suffix`
      yields `{"a":1}`. */
  lemma ProseWrappedReplySpan(prefix: string, body: string, suffix: string)
    requires forall i :: 0 <= i < |prefix| ==> prefix[i] != '{'
    requires forall i :: 0 <= i < |suffix| ==> suffix[i] != '}'
    requires 2 <= |body| && body[0] == '{' && body[|body| - 1] == '}'
    ensures BraceSpan(prefix + body + suffix) == Some(body)
  {
    var reply := prefix + body + suffix;
    var p, q := |prefix|, |prefix| + |body|;
    assert reply[p] == '{' && reply[q - 1] == '}';
    assert forall k :: 0 <= k < p ==> reply[k] == prefix[k];
    assert forall k :: q <= k < |reply| ==> reply[k] == suffix[k - q];
    var start := Find(reply, '{');
    assert start == p;
    var last := RFind(reply, '}');
    assert last == q - 1;
    assert reply[p..q] == body;
  }

  /** When neither the whole reply nor a fenced body decodes, the span's
      decoding is the result. */
  lemma ProseWrappedReplyParses(prefix: string, body: string, suffix: string,
                                parse: string -> Result<Json, string>)
    requires forall i :: 0 <= i < |prefix| ==> prefix[i] != '{'
    requires forall i :: 0 <= i < |suffix| ==> suffix[i] != '}'
    requires 2 <= |body| && body[0] == '{' && body[|body| - 1] == '}'
    requires parse(prefix + body + suffix).Err?
    requires Unfence(prefix + body + suffix).None? || parse(Unfence(prefix + body + suffix).value).Err?
    requires parse(body).Ok?
    ensures ParseLlmJson(prefix + body + suffix, parse) == parse(body)
  {
    ProseWrappedReplySpan(prefix, body, suffix);
  }

  /** A reply that is not JSON, is not fenced and holds no `{` fails with the
      message that quotes its first 200 characters. */
  lemma ReplyWithoutJsonFails(data: string, parse: string -> Result<Json, string>)
    requires parse(data).Err?
    requires !StartsWith(Strip(data), Fence)
    requires forall i :: 0 <= i < |data| ==> data[i] != '{'
    ensures ParseLlmJson(data, parse) == Err("Failed to parse JSON from response: " + Take(data, 200))
    ensures |data| <= 200 ==> ParseLlmJson(data, parse).error == "Failed to parse JSON from response: " + data
  {
  }

  /** One attempt of `extract_with_claude`'s loop: the value and elapsed time it
      returns, or the `last_error` it records. */
  function ExtractAttempt(reply: Reply, parse: string -> Result<Json, string>): Result<(Json, nat), string>
  {
    match reply
    case ApiError(m) => Err("Claude API error: " + m)
    case OtherError(m) => Err("Unexpected error: " + m)
    case Response(raw, ms) =>
      match ParseLlmJson(raw, parse)
      case Ok(data) => Ok((data, ms))
      case Err(e) => Err(e)
  }

  /** The attempts of the loop, indexed from 0. */
  function ExtractionAttempts(reply: nat -> Reply, parse: string -> Result<Json, string>): nat -> Result<(Json, nat), string>
  {
    (i: nat) => ExtractAttempt(reply(i), parse)
  }

  /** The template choice: the with-year template exactly when the year is
      requested. */
  function TemplateFor(includeYear: bool): (t: Template)
    ensures t == WithYearTemplate <==> includeYear
  {
    if includeYear then WithYearTemplate else BaseTemplate
  }

  /** One pass through the `try` of the loop: the decoded data with the
      elapsed milliseconds, or the `last_error` recorded by the `except`
      clauses. */
  method ExtractOnce(reply: Reply, parse: string -> Result<Json, string>) returns (outcome: Result<(Json, nat), string>)
    ensures outcome == ExtractAttempt(reply, parse)
  {
    match reply {
      case ApiError(m) =>
        outcome := Err("Claude API error: " + m);
      case OtherError(m) =>
        outcome := Err("Unexpected error: " + m);
      case Response(raw, ms) =>
        var data := ParseLlmJson(raw, parse);
        if data.Ok? {
          outcome := Ok((data.value, ms));
        } else {
          outcome := Err(data.error);
        }
    }
  }

  /** `extract_with_claude`. `reply(i)` is what the API does on attempt `i`;
      `sent` lists the requests issued and `sleeps` the delays requested from
      `time.sleep`, in order. */
  method ExtractWithClaude(text: string, firstPageText: string, apiKey: string, model: string,
                           maxTokens: int, includeYear: bool, retryAttempts: int,
                           reply: nat -> Reply, parse: string -> Result<Json, string>)
    returns (result: Result<(Json, nat), LlmError>, sent: seq<Request>, sleeps: seq<nat>)
    ensures !ValidApiKey(apiKey) ==> result == Err(InvalidApiKey) && sent == [] && sleeps == []
    ensures ValidApiKey(apiKey) ==>
              var run := Retry(ExtractionAttempts(reply, parse), retryAttempts);
              result == run.result && |sent| == run.attempts && sleeps == run.sleeps
    ensures forall k :: 0 <= k < |sent| ==>
              sent[k] == Request(model, maxTokens, 0,
                                 ExtractionPrompt(TemplateFor(includeYear), firstPageText, text))
  {
    if apiKey == "" || apiKey == Placeholder {
      return Err(InvalidApiKey), [], [];
    }
    var template := if includeYear then WithYearTemplate else BaseTemplate;
    var request := Request(model, maxTokens, 0, ExtractionPrompt(template, firstPageText, text));
    ghost var attempts := ExtractionAttempts(reply, parse);
    sent, sleeps := [], [];
    var lastError: Option<string> := None;
    var attempt: nat := 0;
    while attempt <= retryAttempts
      invariant |sent| == attempt
      invariant forall k :: 0 <= k < |sent| ==> sent[k] == request
      invariant var whole := Retry(attempts, retryAttempts);
                var rest := RetryFrom(attempts, retryAttempts, attempt, lastError);
                whole.result == rest.result && whole.attempts == rest.attempts &&
                whole.sleeps == sleeps + rest.sleeps
      decreases retryAttempts + 1 - attempt
    {
      sent := sent + [request];
      var outcome := ExtractOnce(reply(attempt), parse);
      if outcome.Ok? {
        RetryStepSucceeded(attempts, retryAttempts, attempt, lastError, outcome.value);
        assert sleeps + [] == sleeps;
        return Ok(outcome.value), sent, sleeps;
      }
      var error := outcome.error;
      RetryStepFailed(attempts, retryAttempts, attempt, lastError, sleeps, error);
      lastError := Some(error);
      if attempt < retryAttempts {
        sleeps := sleeps + [Pow2(attempt)];
      } else {
        assert sleeps + [] == sleeps;
      }
      attempt := attempt + 1;
    }
    result := Err(Exhausted(retryAttempts + 1, lastError));
  }

  /** Whatever a successful extraction returns is the tolerant parse of the
      last reply's text, paired with that reply's elapsed milliseconds; every
      earlier attempt failed. */
  lemma ExtractResultOrigin(reply: nat -> Reply, parse: string -> Result<Json, string>, retryAttempts: int)
    requires Retry(ExtractionAttempts(reply, parse), retryAttempts).result.Ok?
    ensures var run := Retry(ExtractionAttempts(reply, parse), retryAttempts);
            run.attempts >= 1 &&
            var last := reply(run.attempts - 1);
            && last.Response?
            && ParseLlmJson(last.text, parse).Ok?
            && run.result.value == (ParseLlmJson(last.text, parse).value, last.elapsedMs)
            && forall j :: 0 <= j < run.attempts - 1 ==>
                 !reply(j).Response? || ParseLlmJson(reply(j).text, parse).Err?
  {
    var attempts := ExtractionAttempts(reply, parse);
    RetryFirstSuccess(attempts, retryAttempts);
    var run := Retry(attempts, retryAttempts);
    forall j | 0 <= j < run.attempts - 1
      ensures !reply(j).Response? || ParseLlmJson(reply(j).text, parse).Err?
    {
      assert attempts(j).Err?;
    }
  }

  /** When extraction gives up, the error it reports is that of the last
      attempt: an API error, another exception, or the parse failure quoting
      the last reply. */
  lemma ExtractFailureReason(reply: nat -> Reply, parse: string -> Result<Json, string>, retryAttempts: int)
    requires retryAttempts >= 0
    requires Retry(ExtractionAttempts(reply, parse), retryAttempts).result.Err?
    ensures var last := reply(retryAttempts);
            Retry(ExtractionAttempts(reply, parse), retryAttempts).result.error ==
              Exhausted(retryAttempts + 1, Some(
                match last
                case ApiError(m) => "Claude API error: " + m
                case OtherError(m) => "Unexpected error: " + m
                case Response(raw, _) => ParseFailureMessage(raw)))
  {
    var attempts := ExtractionAttempts(reply, parse);
    RetryExhausted(attempts, retryAttempts);
    if reply(retryAttempts).Response? {
      ParseLlmJsonStages(reply(retryAttempts).text, parse);
    }
  }

  /** With `retry_attempts = 2` and an API that always errs, exactly three calls
      are made, with sleeps of 1 and 2 between them, and the error names three
      attempts and the third call's error. */
  lemma AlwaysFailingExtraction(reply: nat -> Reply, parse: string -> Result<Json, string>)
    requires forall i :: reply(i).ApiError?
    ensures Retry(ExtractionAttempts(reply, parse), 2) ==
            Run(Err(Exhausted(3, Some("Claude API error: " + reply(2).message))), 3, [1, 2])
  {
    var attempts := ExtractionAttempts(reply, parse);
    assert attempts(0).Err? && attempts(1).Err? && attempts(2).Err?;
    assert Pow2(1) == 2;
    assert RetryFrom(attempts, 2, 2, Some(attempts(1).error)).sleeps == [];
    assert RetryFrom(attempts, 2, 1, Some(attempts(0).error)).sleeps == [2];
  }
}
