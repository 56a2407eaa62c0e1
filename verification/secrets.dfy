/**
 * Where a provider's API key comes from: an environment variable named
 * after the provider, or else the OS keyring under the service "tailorcv"
 * and an account named after the provider. The environment and the
 * keyring are values here: a map from variable names to values, and a
 * keyring that is either a map from (service, account) pairs to secrets
 * or one of the ways reaching it can fail.
 */
module Secrets {

  import opened Wrappers
  import opened Text

  const KeyringServiceName: string := "tailorcv"

  /** The environment: variable name to value. */
  type Environment = map<string, string>

  /**
   * The OS keyring as seen through the `keyring` package: the package is
   * missing, no backend is available, the backend raises a keyring error
   * (with its text), or it answers from its entries.
   */
  datatype Keyring =
    | PackageMissing
    | NoBackend
    | Broken(reason: string)
    | Backend(entries: map<(string, string), string>)

  const MissingPackageMessage: string :=
    "The 'keyring' package is not available. Install dependencies or use environment variables for API keys."
  const NoBackendReadMessage: string :=
    "No OS keyring backend is available. Set OPENAI_API_KEY (or provider equivalent) in your environment for now."
  const NoBackendStoreMessage: string :=
    "No OS keyring backend is available. Use environment variables for API keys."
  const NoBackendDeleteMessage: string :=
    "No OS keyring backend is available. Nothing to delete from secure storage."

  /** A provider name stripped and lower-cased, as every helper here first does. */
  function Normalized(provider: string): string {
    Lower(Strip(provider))
  }

  /**
   * `get_api_key_env_var`: "OPENAI_API_KEY" for OpenAI, otherwise the
   * upper-cased normalised name followed by "_API_KEY". The OpenAI case is
   * the general rule spelled out.
   */
  function EnvVarName(provider: string): (r: string)
    ensures r == Upper(Normalized(provider)) + "_API_KEY"
    ensures Normalized(provider) == "openai" ==> r == "OPENAI_API_KEY"
  {
    var normalized := Normalized(provider);
    if normalized == "openai" then
      assert Upper(normalized) == "OPENAI";
      "OPENAI_API_KEY"
    else Upper(normalized) + "_API_KEY"
  }

  /** `_account_name`: the normalised provider name followed by "_api_key". */
  function AccountName(provider: string): (r: string)
    ensures |r| == |Strip(provider)| + 8
    ensures r[..|Strip(provider)|] == Normalized(provider)
    ensures r[|Strip(provider)|..] == "_api_key"
  {
    Normalized(provider) + "_api_key"
  }

  /** Two provider names share a keyring account iff they normalise alike. */
  lemma AccountNameInjective(p: string, q: string)
    ensures AccountName(p) == AccountName(q) <==> Normalized(p) == Normalized(q)
  {
    if AccountName(p) == AccountName(q) {
      assert |Normalized(p)| == |Normalized(q)|;
      assert Normalized(p) == AccountName(p)[..|Normalized(p)|];
    }
  }

  /** Lower-casing leaves whitespace where it was. */
  lemma LowerKeepsSpaces(s: string)
    ensures forall i :: 0 <= i < |s| ==> (IsSpace(Lower(s)[i]) <==> IsSpace(s[i]))
  {
  }

  /** Normalising a normalised name changes nothing. */
  lemma NormalizedIdempotent(provider: string)
    ensures Normalized(Normalized(provider)) == Normalized(provider)
  {
    var n := Normalized(provider);
    LowerKeepsSpaces(Strip(provider));
    assert NoEdgeSpace(n);
    StripNoEdge(n);
    assert Lower(n) == n;
  }

  /** The key's location depends only on the normalised provider name. */
  lemma NamesFollowNormalized(provider: string)
    ensures EnvVarName(Normalized(provider)) == EnvVarName(provider)
    ensures AccountName(Normalized(provider)) == AccountName(provider)
  {
    NormalizedIdempotent(provider);
  }

  /** The keyring key a provider's secret is stored under. */
  function KeyringKey(provider: string): (string, string) {
    (KeyringServiceName, AccountName(provider))
  }

  /**
   * `get_stored_api_key`: the stored secret, if any, or the message of the
   * secret-store error raised instead.
   */
  function GetStoredApiKey(keyring: Keyring, provider: string): (r: Result<Option<string>, string>)
    ensures r.Success? <==> keyring.Backend?
    ensures r.Success? ==> (r.value.Some? <==> KeyringKey(provider) in keyring.entries)
    ensures r.Success? && r.value.Some? ==> r.value.value == keyring.entries[KeyringKey(provider)]
    ensures keyring.Broken? ==> r == Failure("Failed to read API key from keyring: " + keyring.reason)
  {
    match keyring
    case PackageMissing => Failure(MissingPackageMessage)
    case NoBackend => Failure(NoBackendReadMessage)
    case Broken(reason) => Failure("Failed to read API key from keyring: " + reason)
    case Backend(entries) =>
      if KeyringKey(provider) in entries then Success(Some(entries[KeyringKey(provider)])) else Success(None)
  }

  /** `set_api_key`: the keyring after storing the secret, or the error raised. */
  function SetApiKey(keyring: Keyring, provider: string, apiKey: string): (r: Result<Keyring, string>)
    ensures r.Success? <==> keyring.Backend?
    ensures r.Success? ==> r.value.Backend? && r.value.entries.Keys == keyring.entries.Keys + {KeyringKey(provider)}
    ensures r.Success? ==> r.value.entries[KeyringKey(provider)] == apiKey
    ensures r.Success? ==> forall k :: k in keyring.entries && k != KeyringKey(provider) ==> r.value.entries[k] == keyring.entries[k]
    ensures keyring.PackageMissing? ==> r == Failure(MissingPackageMessage)
    ensures keyring.NoBackend? ==> r == Failure(NoBackendStoreMessage)
    ensures keyring.Broken? ==> r == Failure("Failed to store API key in keyring: " + keyring.reason)
  {
    match keyring
    case PackageMissing => Failure(MissingPackageMessage)
    case NoBackend => Failure(NoBackendStoreMessage)
    case Broken(reason) => Failure("Failed to store API key in keyring: " + reason)
    case Backend(entries) => Success(Backend(entries[KeyringKey(provider) := apiKey]))
  }

  /**
   * `delete_api_key`: the keyring without the provider's secret. Deleting
   * a secret that is not there is not an error.
   */
  function DeleteApiKey(keyring: Keyring, provider: string): (r: Result<Keyring, string>)
    ensures r.Success? <==> keyring.Backend?
    ensures r.Success? ==> r.value.Backend? && r.value.entries.Keys == keyring.entries.Keys - {KeyringKey(provider)}
    ensures r.Success? ==> forall k :: k in r.value.entries ==> r.value.entries[k] == keyring.entries[k]
    ensures keyring.PackageMissing? ==> r == Failure(MissingPackageMessage)
    ensures keyring.NoBackend? ==> r == Failure(NoBackendDeleteMessage)
    ensures keyring.Broken? ==> r == Failure("Failed to delete API key from keyring: " + keyring.reason)
  {
    match keyring
    case PackageMissing => Failure(MissingPackageMessage)
    case NoBackend => Failure(NoBackendDeleteMessage)
    case Broken(reason) => Failure("Failed to delete API key from keyring: " + reason)
    case Backend(entries) => Success(Backend(entries - {KeyringKey(provider)}))
  }

  /**
   * Storing a secret and reading it back under any spelling of the same
   * provider returns it; providers that normalise differently read what
   * they read before.
   */
  lemma SetThenGet(keyring: Keyring, provider: string, apiKey: string, other: string)
    requires keyring.Backend?
    ensures SetApiKey(keyring, provider, apiKey).Success?
    ensures Normalized(other) == Normalized(provider) ==>
      GetStoredApiKey(SetApiKey(keyring, provider, apiKey).value, other) == Success(Some(apiKey))
    ensures Normalized(other) != Normalized(provider) ==>
      GetStoredApiKey(SetApiKey(keyring, provider, apiKey).value, other) == GetStoredApiKey(keyring, other)
  {
    AccountNameInjective(provider, other);
  }

  /** After deleting a provider's secret, reading it finds nothing. */
  lemma DeleteThenGet(keyring: Keyring, provider: string)
    requires keyring.Backend?
    ensures GetStoredApiKey(DeleteApiKey(keyring, provider).value, provider) == Success(None)
  {
  }

  /** The environment value worth using: present and not blank. */
  predicate UsableEnvValue(env: Environment, name: string) {
    name in env && Strip(env[name]) != []
  }

  /**
   * `get_api_key`: a non-blank environment value wins, stripped; otherwise
   * the keyring is read.
   */
  function GetApiKey(env: Environment, keyring: Keyring, provider: string): (r: Result<Option<string>, string>)
    ensures UsableEnvValue(env, EnvVarName(provider)) ==>
      r == Success(Some(Strip(env[EnvVarName(provider)])))
    ensures !UsableEnvValue(env, EnvVarName(provider)) ==> r == GetStoredApiKey(keyring, provider)
    ensures r.Success? && r.value.Some? ==>
      (UsableEnvValue(env, EnvVarName(provider)) && NoEdgeSpace(r.value.value)) || keyring.Backend?
  {
    var name := EnvVarName(provider);
    if name in env && env[name] != [] && Strip(env[name]) != [] then Success(Some(Strip(env[name])))
    else GetStoredApiKey(keyring, provider)
  }

  /** When the environment supplies the key, the keyring is never consulted: any keyring gives the same answer. */
  lemma EnvironmentShadowsKeyring(env: Environment, k1: Keyring, k2: Keyring, provider: string)
    requires UsableEnvValue(env, EnvVarName(provider))
    ensures GetApiKey(env, k1, provider) == GetApiKey(env, k2, provider)
    ensures GetApiKey(env, k1, provider).Success?
  {
  }

  /** A key found in the environment is non-empty and has no edge whitespace. */
  lemma EnvironmentKeyTrimmed(env: Environment, keyring: Keyring, provider: string)
    requires UsableEnvValue(env, EnvVarName(provider))
    ensures GetApiKey(env, keyring, provider).value.Some?
    ensures GetApiKey(env, keyring, provider).value.value != []
    ensures NoEdgeSpace(GetApiKey(env, keyring, provider).value.value)
  {
  }
}
