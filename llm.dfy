/**
 * `get_llm`: the model name's prefix chooses the provider. The client object
 * itself is external, so the model returns the configuration it is built with.
 */
module Llm {
  import opened Wrappers
  import opened Text
  import opened Config

  datatype Provider = OpenAI | Zhipu

  datatype LlmConfig = LlmConfig(
    provider: Provider,
    model: string,
    timeout: int,
    maxRetries: nat,
    maxTokens: int,
    apiKey: string,
    baseUrl: Option<string>,
    streaming: bool)

  const DefaultMaxTokens: int := 4096
  const DefaultTimeout: int := 120
  const MaxRetries: nat := 2
  const ZhipuBaseUrl: string := "https://open.bigmodel.cn/api/paas/v4/"

  function ClaudeRejected(modelName: string): string {
    "Claude models are not supported. Use OpenAI or GLM models instead. "
    + "Configure GRAMMAR_MODEL, READING_MODEL, or VOCABULARY_MODEL env vars. Got: " + modelName
  }

  function GlmKeyMissing(modelName: string): string {
    "GLM_API_KEY environment variable is required for GLM models. Got model: " + modelName
  }

  /** Python truthiness of an optional string: present and non-empty. */
  predicate HasKey(key: Option<string>) { key.Some? && key.value != "" }

  /**
   * `get_llm(model_name, max_tokens, timeout)`. `settings` is what
   * `get_settings()` gives, or the error it raises; it is read only after the
   * Claude check.
   */
  function GetLlm(modelName: string, settings: Result<Settings, string>,
                  maxTokens: Option<int> := None, timeout: int := DefaultTimeout)
    : (r: Result<LlmConfig, string>)
    ensures StartsWith(modelName, "claude-") ==> r == Err(ClaudeRejected(modelName))
    ensures !StartsWith(modelName, "claude-") && settings.Err? ==> r == Err(settings.error)
    ensures r.Ok? <==> (!StartsWith(modelName, "claude-") && settings.Ok?
      && (StartsWith(modelName, "gpt-") || (StartsWith(modelName, "glm-") && HasKey(settings.value.glmApiKey))))
    ensures r.Ok? ==> (r.value.model == modelName && r.value.timeout == timeout
      && r.value.maxRetries == MaxRetries && r.value.streaming
      && r.value.maxTokens == (if maxTokens.Some? then maxTokens.value else DefaultMaxTokens))
    ensures r.Ok? && StartsWith(modelName, "gpt-") ==>
      r.value.provider == OpenAI && r.value.apiKey == settings.value.openaiApiKey && r.value.baseUrl == None
    ensures r.Ok? && StartsWith(modelName, "glm-") ==>
      r.value.provider == Zhipu && r.value.apiKey == settings.value.glmApiKey.value && r.value.baseUrl == Some(ZhipuBaseUrl)
    ensures settings.Ok? && StartsWith(modelName, "glm-") && !HasKey(settings.value.glmApiKey) ==>
      r == Err(GlmKeyMissing(modelName))
    ensures (settings.Ok? && !StartsWith(modelName, "claude-") && !StartsWith(modelName, "gpt-")
      && !StartsWith(modelName, "glm-")) ==> r == Err("Unknown model: " + modelName)
  {
    PrefixesExclusive(modelName);
    var tokens := if maxTokens.Some? then maxTokens.value else DefaultMaxTokens;
    if StartsWith(modelName, "claude-") then Err(ClaudeRejected(modelName))
    else if settings.Err? then Err(settings.error)
    else if StartsWith(modelName, "gpt-") then
      Ok(LlmConfig(OpenAI, modelName, timeout, MaxRetries, tokens, settings.value.openaiApiKey, None, true))
    else if StartsWith(modelName, "glm-") then
      if !HasKey(settings.value.glmApiKey) then Err(GlmKeyMissing(modelName))
      else Ok(LlmConfig(Zhipu, modelName, timeout, MaxRetries, tokens, settings.value.glmApiKey.value,
        Some(ZhipuBaseUrl), true))
    else Err("Unknown model: " + modelName)
  }

  /** No name has two of the three known prefixes. */
  lemma PrefixesExclusive(m: string)
    ensures !(StartsWith(m, "claude-") && StartsWith(m, "gpt-"))
    ensures !(StartsWith(m, "claude-") && StartsWith(m, "glm-"))
    ensures !(StartsWith(m, "gpt-") && StartsWith(m, "glm-"))
  {
    if StartsWith(m, "claude-") { StartsWithFirst(m, "claude-"); }
    if StartsWith(m, "gpt-") { StartsWithFirst(m, "gpt-"); }
  }

  /** With default settings every agent's configured model is accepted, as an OpenAI model. */
  lemma DefaultModelsAccepted(key: string, maxTokens: Option<int>, timeout: int)
    ensures GetLlm(DefaultModel, Ok(DefaultSettings(key)), maxTokens, timeout).Ok?
    ensures GetLlm(DefaultModel, Ok(DefaultSettings(key)), maxTokens, timeout).value.provider == OpenAI
  {
    assert DefaultModel[..4] == "gpt-";
    PrefixesExclusive(DefaultModel);
  }

  /** The reading agent's hard-coded model is always refused. */
  lemma ReadingModelRefused(settings: Result<Settings, string>)
    ensures GetLlm("claude-sonnet-4-5", settings).Err?
  {
    assert StartsWith("claude-sonnet-4-5", "claude-");
  }
}
