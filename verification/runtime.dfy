/**
 * Resolution of the provider, model and API key a generation run uses:
 * call overrides first, then the persisted configuration, then the
 * environment and the keyring for the key. The persisted configuration is
 * an input (the loaded value or the message of the load error), as are the
 * environment and the keyring.
 */
module Runtime {

  import opened Wrappers
  import opened Text
  import opened Secrets

  /** The supported providers. */
  datatype LlmProvider = OpenAi {
    /** The provider's string value. */
    function Value(): string {
      match this
      case OpenAi => "openai"
    }
  }

  /** The persisted LLM defaults. */
  datatype LlmConfig = LlmConfig(provider: LlmProvider, model: string)

  /** The effective configuration of a run. */
  datatype ResolvedLlmConfig = ResolvedLlmConfig(provider: LlmProvider, model: string, apiKey: string)

  const EmptyModelMessage: string := "LLM model cannot be empty."

  /** The error raised when no key can be found; it names the variable that would supply one. */
  function NoApiKeyMessage(provider: LlmProvider): string {
    "No API key available for provider '" + provider.Value() + "'. Set " + EnvVarName(provider.Value())
    + " or run `python -m tailorcv init`."
  }

  /** An optional string that is present and not blank, stripped. */
  function NonBlank(s: Option<string>): (r: Option<string>)
    ensures r.Some? <==> s.Some? && Strip(s.value) != []
    ensures r.Some? ==> r.value == Strip(s.value) && r.value != [] && NoEdgeSpace(r.value)
  {
    if s.Some? && s.value != [] && Strip(s.value) != [] then Some(Strip(s.value)) else None
  }

  /** The provider a run uses: the override when given, else the persisted one. */
  function ResolvedProvider(providerOverride: Option<LlmProvider>, persisted: LlmConfig): LlmProvider {
    if providerOverride.Some? then providerOverride.value else persisted.provider
  }

  /**
   * `resolve_llm_runtime_config`. Every failure is an `LlmRuntimeConfigError`,
   * represented by its message.
   */
  function ResolveLlmRuntimeConfig(providerOverride: Option<LlmProvider>, modelOverride: Option<string>,
                                   apiKeyOverride: Option<string>, persisted: Result<LlmConfig, string>,
                                   env: Environment, keyring: Keyring): (r: Result<ResolvedLlmConfig, string>)
    ensures persisted.Failure? ==> r == Failure(persisted.error)
    ensures r.Success? ==> persisted.Success?
    ensures r.Success? ==> r.value.provider == ResolvedProvider(providerOverride, persisted.value)
    ensures r.Success? ==> r.value.model != [] && r.value.apiKey != []
    ensures r.Success? && NonBlank(modelOverride).Some? ==> r.value.model == NonBlank(modelOverride).value
    ensures r.Success? && NonBlank(modelOverride).None? ==> r.value.model == persisted.value.model
    ensures r.Success? && NonBlank(apiKeyOverride).Some? ==> r.value.apiKey == NonBlank(apiKeyOverride).value
    ensures persisted.Success? && NonBlank(modelOverride).None? && persisted.value.model == [] ==>
      r == Failure(EmptyModelMessage)
    ensures (persisted.Success? && (NonBlank(modelOverride).Some? || persisted.value.model != []) &&
             NonBlank(apiKeyOverride).Some?) ==> r.Success?
  {
    match persisted
    case Failure(e) => Failure(e)
    case Success(config) =>
      var provider := ResolvedProvider(providerOverride, config);
      var model := if NonBlank(modelOverride).Some? then NonBlank(modelOverride).value else config.model;
      if model == [] then Failure(EmptyModelMessage)
      else
        var lookedUp :=
          if NonBlank(apiKeyOverride).Some? then Success(NonBlank(apiKeyOverride))
          else GetApiKey(env, keyring, provider.Value());
        match lookedUp
        case Failure(e) => Failure(e)
        case Success(key) =>
          if key.None? || key.value == [] then Failure(NoApiKeyMessage(provider))
          else Success(ResolvedLlmConfig(provider, model, key.value))
  }

  /** A non-blank key override settles the key: the environment and the keyring are not consulted. */
  lemma KeyOverrideSkipsLookup(providerOverride: Option<LlmProvider>, modelOverride: Option<string>,
                               apiKeyOverride: Option<string>, persisted: Result<LlmConfig, string>,
                               env1: Environment, keyring1: Keyring, env2: Environment, keyring2: Keyring)
    requires NonBlank(apiKeyOverride).Some?
    ensures ResolveLlmRuntimeConfig(providerOverride, modelOverride, apiKeyOverride, persisted, env1, keyring1)
         == ResolveLlmRuntimeConfig(providerOverride, modelOverride, apiKeyOverride, persisted, env2, keyring2)
  {
  }

  /**
   * Without a key override, a missing or empty stored key (and no usable
   * environment value) is reported with the provider's variable name, and
   * a secret-store error is passed on.
   */
  lemma KeyLookupFailures(providerOverride: Option<LlmProvider>, modelOverride: Option<string>,
                          apiKeyOverride: Option<string>, config: LlmConfig,
                          env: Environment, keyring: Keyring)
    requires NonBlank(apiKeyOverride).None?
    requires NonBlank(modelOverride).Some? || config.model != []
    ensures var provider := ResolvedProvider(providerOverride, config);
      var lookup := GetApiKey(env, keyring, provider.Value());
      var r := ResolveLlmRuntimeConfig(providerOverride, modelOverride, apiKeyOverride, Success(config), env, keyring);
      && (lookup.Failure? ==> r == Failure(lookup.error))
      && (lookup.Success? && (lookup.value.None? || lookup.value.value == []) ==> r == Failure(NoApiKeyMessage(provider)))
      && (lookup.Success? && lookup.value.Some? && lookup.value.value != [] ==> r.Success? && r.value.apiKey == lookup.value.value)
  {
  }

  /** With no overrides, a usable environment value and a non-empty persisted model always resolve. */
  lemma EnvironmentKeyResolves(config: LlmConfig, env: Environment, keyring: Keyring)
    requires config.model != []
    requires UsableEnvValue(env, EnvVarName(config.provider.Value()))
    ensures ResolveLlmRuntimeConfig(None, None, None, Success(config), env, keyring)
         == Success(ResolvedLlmConfig(config.provider, config.model, Strip(env[EnvVarName(config.provider.Value())])))
  {
    EnvironmentKeyTrimmed(env, keyring, config.provider.Value());
  }
}
