/**
 * The environment the AI modules read (`process.env`) and the provider calls they make,
 * both as values: the SDK requests become an oracle indexed by the position of the call.
 */
module AiConfig {
  import opened Wrappers
  import opened Json

  /** The environment variables read by the AI modules; `None` is an unset variable. */
  datatype Env = Env(
    openaiKey: Option<string>,
    geminiKey: Option<string>,
    openaiModel: Option<string>,
    geminiModel: Option<string>)

  const OpenAiPlaceholder: string := "your_openai_api_key_here"
  const GeminiPlaceholder: string := "your_gemini_api_key_here"

  /** `key && key !== placeholder`: set, non-empty and not the sample value from the template `.env`. */
  predicate Usable(key: Option<string>, placeholder: string) {
    key.Some? && key.value != "" && key.value != placeholder
  }

  /** `value || fallback` on an environment variable. */
  function OrDefault(value: Option<string>, fallback: string): (r: string)
    ensures value.Some? && value.value != "" ==> r == value.value
    ensures value.None? || value.value == "" ==> r == fallback
    ensures fallback != "" ==> r != ""
  {
    if value.Some? && value.value != "" then value.value else fallback
  }

  /** Whether the OpenAI client is created when the module loads. */
  predicate OpenAiClientReady(env: Env) {
    Usable(env.openaiKey, OpenAiPlaceholder)
  }

  /** Whether the Gemini client is created when the module loads. */
  predicate GeminiClientReady(env: Env) {
    Usable(env.geminiKey, GeminiPlaceholder)
  }

  const OpenAiMissing: string := "OpenAI API key not configured. Please set OPENAI_API_KEY in .env file"
  const GeminiMissing: string := "Gemini API key not configured. Please set GEMINI_API_KEY in .env file"
  const InvalidFormat: string := "Invalid AI response format"

  /**
   * The outside world of one batch: `reply(k, model, prompt)` is the provider's text reply to
   * the `k`-th request or the message of the error it raised, `parse` is `JSON.parse` (`None`
   * for a syntax error), and `elapsed(k)` and `clock(k)` are the measured processing time and
   * the ISO timestamp taken for the `k`-th request.
   */
  datatype AiCalls = AiCalls(
    reply: (nat, string, string) -> Result<string>,
    parse: string -> Option<JsValue>,
    elapsed: nat -> int,
    clock: nat -> string)

  /** The fields every provider adds to an accepted reply. */
  const StampKeys: set<string> := {"model_version", "processing_time_ms", "processed_at"}

  /** The three fields every successful classification or extraction adds to the parsed reply. */
  function Stamp(model: string, elapsed: int, at: string): (r: map<string, JsValue>)
    ensures r.Keys == StampKeys
    ensures r["model_version"] == JStr(model) && r["processed_at"] == JStr(at)
    ensures r["processing_time_ms"] == JNum(elapsed as real)
  {
    map["model_version" := JStr(model), "processing_time_ms" := JNum(elapsed as real), "processed_at" := JStr(at)]
  }
}
