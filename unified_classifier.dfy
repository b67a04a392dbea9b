/**
 * The unified classifier: it picks the AI provider from the environment, Gemini first,
 * reports the configuration of both providers, and hands an article to the chosen one.
 */
module UnifiedClassifier {
  import opened Wrappers
  import opened Json
  import opened Text
  import opened AiConfig
  import opened Prompts
  import Classifier
  import GeminiClassifier

  datatype Provider = OpenAI | Gemini | NoProvider

  /** The name the source returns: `openai`, `gemini` or `none`. */
  function Name(p: Provider): (r: string)
    ensures r == "openai" <==> p == OpenAI
    ensures r == "gemini" <==> p == Gemini
    ensures r == "none" <==> p == NoProvider
  {
    match p
    case OpenAI => "openai"
    case Gemini => "gemini"
    case NoProvider => "none"
  }

  /** An OpenAI key counts only when it is set, not the placeholder, and starts with `sk-`. */
  predicate OpenAiConfigured(env: Env) {
    Usable(env.openaiKey, OpenAiPlaceholder) && StartsWith(env.openaiKey.value, "sk-")
  }

  predicate GeminiConfigured(env: Env) {
    Usable(env.geminiKey, GeminiPlaceholder)
  }

  /**
   * `getAvailableProvider`: Gemini whenever its key is usable, whatever the OpenAI key;
   * OpenAI only without Gemini and with a usable `sk-` key; otherwise none.
   */
  function AvailableProvider(env: Env): (p: Provider)
    ensures p == Gemini <==> GeminiConfigured(env)
    ensures p == OpenAI <==> OpenAiConfigured(env) && !GeminiConfigured(env)
    ensures p == NoProvider <==> !OpenAiConfigured(env) && !GeminiConfigured(env)
  {
    if Usable(env.geminiKey, GeminiPlaceholder) then Gemini
    else if env.openaiKey.Some? && env.openaiKey.value != "" && env.openaiKey.value != OpenAiPlaceholder
         && StartsWith(env.openaiKey.value, "sk-") then OpenAI
    else NoProvider
  }

  /** A chosen provider always has its client: the selection is stricter than client creation. */
  lemma ChosenProviderReady(env: Env)
    ensures AvailableProvider(env) == Gemini ==> GeminiClientReady(env)
    ensures AvailableProvider(env) == OpenAI ==> OpenAiClientReady(env)
  {
  }

  /** A key the OpenAI client accepts but the selection does not: no `sk-` prefix. */
  lemma KeyWithoutPrefixIgnored(key: string)
    requires key != "" && key != OpenAiPlaceholder && !StartsWith(key, "sk-")
    ensures OpenAiClientReady(Env(Some(key), None, None, None))
    ensures AvailableProvider(Env(Some(key), None, None, None)) == NoProvider
  {
  }

  /** `configured` is the value of the `&&` chain itself: `undefined`, `""` or a boolean. */
  datatype ProviderInfo = ProviderInfo(configured: Option<JsValue>, model: string)

  /**
   * `key && rest`: `undefined` for an unset variable, the empty string for an empty one,
   * and otherwise the boolean `rest`.
   */
  function KeyAnd(key: Option<string>, rest: bool): (r: Option<JsValue>)
    ensures key.None? ==> r.None?
    ensures key == Some("") ==> r == Some(JStr(""))
    ensures key.Some? && key.value != "" ==> r == Some(JBool(rest))
    ensures Truthy(r) <==> key.Some? && key.value != "" && rest
  {
    if key.None? then None
    else if key.value == "" then Some(JStr(""))
    else Some(JBool(rest))
  }

  datatype ProviderStatus = ProviderStatus(openai: ProviderInfo, gemini: ProviderInfo, activeProvider: string, anyConfigured: bool)

  const StatusOpenAiModel: string := "gpt-4o-mini"

  /**
   * `getProviderStatus`: some provider is configured exactly when the active provider is not
   * `none`; Gemini is active exactly when it is configured, OpenAI exactly when it is
   * configured and Gemini is not; the model names fall back to their defaults. A
   * `configured` flag is `undefined` for an unset key, `""` for an empty one and a boolean
   * otherwise.
   */
  function Status(env: Env): (s: ProviderStatus)
    ensures s.anyConfigured <==> s.activeProvider != "none"
    ensures s.activeProvider == "gemini" <==> Truthy(s.gemini.configured)
    ensures s.activeProvider == "openai" <==> Truthy(s.openai.configured) && !Truthy(s.gemini.configured)
    ensures env.openaiKey.None? ==> s.openai.configured.None?
    ensures env.geminiKey.None? ==> s.gemini.configured.None?
    ensures env.openaiKey == Some("") ==> s.openai.configured == Some(JStr(""))
    ensures env.geminiKey == Some("") ==> s.gemini.configured == Some(JStr(""))
    ensures env.openaiKey.Some? && env.openaiKey.value != "" ==> s.openai.configured == Some(JBool(OpenAiConfigured(env)))
    ensures env.geminiKey.Some? && env.geminiKey.value != "" ==> s.gemini.configured == Some(JBool(GeminiConfigured(env)))
    ensures s.openai.model == OrDefault(env.openaiModel, StatusOpenAiModel)
    ensures s.gemini.model == GeminiClassifier.ModelVersion(env)
  {
    var active := AvailableProvider(env);
    ProviderStatus(
      ProviderInfo(KeyAnd(env.openaiKey, OpenAiConfigured(env)),
                   OrDefault(env.openaiModel, StatusOpenAiModel)),
      ProviderInfo(KeyAnd(env.geminiKey, GeminiConfigured(env)),
                   OrDefault(env.geminiModel, GeminiClassifier.DefaultModel)),
      Name(active),
      Name(active) != "none")
  }

  const NoProviderMessage: string := "No AI provider configured. " + "Please set OPENAI_API_KEY or GEMINI_API_KEY in .env file"

  /**
   * `classifyArticleUnified`: the article goes to the selected provider's classifier, and
   * with no provider the call fails with the configuration message and no request is made.
   */
  function ClassifyUnified(env: Env, template: string, a: ArticleInput, openai: AiCalls, gemini: AiCalls, k: nat)
    : (r: Result<map<string, JsValue>>)
    ensures AvailableProvider(env) == NoProvider ==> r == Failure(NoProviderMessage)
    ensures AvailableProvider(env) == Gemini ==> r == GeminiClassifier.Classify(env, template, a, gemini, k)
    ensures AvailableProvider(env) == OpenAI ==> r == Classifier.Classify(env, template, a, openai, k)
  {
    match AvailableProvider(env)
    case OpenAI => Classifier.Classify(env, template, a, openai, k)
    case Gemini => GeminiClassifier.Classify(env, template, a, gemini, k)
    case NoProvider => Failure(NoProviderMessage)
  }

  /** The configuration message comes only from the missing provider: the classifiers' own errors carry their prefix. */
  lemma NoProviderMessageOnlyWithoutProvider(env: Env, template: string, a: ArticleInput, openai: AiCalls, gemini: AiCalls, k: nat)
    ensures ClassifyUnified(env, template, a, openai, gemini, k) == Failure(NoProviderMessage) <==> AvailableProvider(env) == NoProvider
  {
    var r := ClassifyUnified(env, template, a, openai, gemini, k);
    if AvailableProvider(env) != NoProvider && r.Failure? {
      // both classifiers prefix their errors with "Classification failed: "
      StartsWithChar(r.error, Classifier.FailurePrefix, 0);
      StartsWithChar(r.error, GeminiClassifier.FailurePrefix, 0);
      assert r.error[0] == 'C';
      assert NoProviderMessage[0] == 'N';
    }
  }
}
