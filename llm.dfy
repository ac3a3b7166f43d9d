/** What the two LLM clients exchange with the Anthropic API, which is not part
    of this model: the request each attempt sends, the reply it gets back, and
    the way a whole call can fail. */
module Llm {

  import opened Common

  /** The API key the program treats as "not configured". */
  const Placeholder := "YOUR_API_KEY_HERE"

  /** `not api_key or api_key == "YOUR_API_KEY_HERE"` is the rejection test. */
  predicate ValidApiKey(key: string)
  {
    key != "" && key != Placeholder
  }

  /** The two extraction templates of prompts.py. */
  datatype Template = BaseTemplate | WithYearTemplate

  /** A rendered prompt, kept symbolic: the template and the values substituted
      into its placeholders by `str.format`. */
  datatype Prompt =
    | ExtractionPrompt(template: Template, firstPageText: string, fullText: string)
    | CoveragePrompt(structureText: string, content: Json)

  /** The arguments of one `client.messages.create` call. */
  datatype Request = Request(model: string, maxTokens: int, temperature: int, prompt: Prompt)

  /** How one call turns out: an `anthropic.APIError`, any other exception
      (say, a reply without content), or the reply's text together with the
      elapsed milliseconds measured around the call. */
  datatype Reply =
    | ApiError(message: string)
    | OtherError(message: string)
    | Response(text: string, elapsedMs: nat)

  /** How a whole LLM call fails: `ExtractionError`/`CoverageCheckError` with
      "Valid API key required", or with
      "Failed after {retry_attempts + 1} attempts. Last error: {last_error}". */
  datatype LlmError =
    | InvalidApiKey
    | Exhausted(reportedAttempts: int, lastError: Option<string>)
}
