/** Application settings: the field validators run when the settings are
    loaded, the cross-field `validate()` check, and the derived properties
    that pick the deployment mode and the language-model provider. */
module Configuration {
  import opened Errors
  import opened Text

  /** The settings the core reads. Optional keys are `None` when unset;
      the temperature is kept as a real and never validated here. */
  datatype Config = Config(
    twilioAccountSid: string,
    twilioAuthToken: string,
    twilioPhoneNumber: string,
    openaiApiKey: Option<string>,
    openaiModel: string,
    openaiTemperature: real,
    openaiMaxTokens: int,
    anthropicApiKey: Option<string>,
    anthropicModel: string,
    googleCloudProject: Option<string>,
    firestoreCollection: string,
    agentName: string,
    agentPersonality: string,
    maxConversationLength: int,
    conversationTimeoutHours: int,
    maxSmsLength: int,
    messageTruncationSuffix: string,
    rateLimitPerUserPerMinute: int,
    rateLimitPerUserPerHour: int,
    debugMode: bool,
    logLevel: string,
    localDevelopment: bool,
    webhookValidationEnabled: bool)

  /** The settings with every default filled in; only the three Twilio
      values have no default. */
  function Defaults(accountSid: string, authToken: string, phoneNumber: string): Config {
    Config(accountSid, authToken, phoneNumber,
           None, "gpt-3.5-turbo", 0.7, 150,
           None, "claude-3-haiku-20240307",
           None, "conversations",
           "AI Assistant", "helpful, friendly, and concise", 20, 24,
           1600, "...",
           5, 50,
           false, "INFO", false, true)
  }

  /** Python truthiness of an optional string: set and non-empty. */
  predicate IsSet(v: Option<string>) {
    v.Some? && v.value != ""
  }

  /** `v.replace(c, '')`. */
  function RemoveChar(s: string, c: char): (r: string)
    ensures |r| <= |s|
    ensures forall i :: 0 <= i < |r| ==> r[i] != c
  {
    if s == [] then []
    else if s[0] == c then RemoveChar(s[1..], c)
    else [s[0]] + RemoveChar(s[1..], c)
  }

  lemma RemoveAbsentChar(s: string, c: char)
    requires forall i :: 0 <= i < |s| ==> s[i] != c
    ensures RemoveChar(s, c) == s
  {
    if s != [] {
      RemoveAbsentChar(s[1..], c);
    }
  }

  /** What remains of a phone number once `+`, spaces and `-` are removed. */
  function PhoneCore(v: string): string {
    RemoveChar(RemoveChar(RemoveChar(v, '+'), ' '), '-')
  }

  function ValidatePhoneNumber(v: string): (r: Result<string>)
    ensures r.Ok? <==> StartsWith(v, "+") && |PhoneCore(v)| >= 10
    ensures r.Ok? ==> r.value == v
    ensures !StartsWith(v, "+") ==> r == Err(Error(ValueError, "Phone number must start with +"))
  {
    if !StartsWith(v, "+") then Err(Error(ValueError, "Phone number must start with +"))
    else if |PhoneCore(v)| < 10 then Err(Error(ValueError, "Phone number must be at least 10 digits"))
    else Ok(v)
  }

  /** The length check counts every remaining character, not only digits:
      a `+` followed by ten or more letters is accepted. */
  lemma PhoneCheckCountsAnyCharacter(v: string)
    requires |v| >= 11 && v[0] == '+'
    requires forall i :: 1 <= i < |v| ==> 'a' <= v[i] <= 'z'
    ensures ValidatePhoneNumber(v).Ok?
  {
    var letters := v[1..];
    assert v[..1] == "+";
    assert forall i :: 0 <= i < |letters| ==> letters[i] == v[i + 1];
    RemoveAbsentChar(letters, '+');
    RemoveAbsentChar(letters, ' ');
    RemoveAbsentChar(letters, '-');
    assert RemoveChar(v, '+') == letters;
    assert PhoneCore(v) == letters;
  }

  function ValidateMaxTokens(v: int): (r: Result<int>)
    ensures r.Ok? <==> 1 <= v <= 4000
    ensures r.Ok? ==> r.value == v
  {
    if v < 1 || v > 4000 then Err(Error(ValueError, "Max tokens must be between 1 and 4000"))
    else Ok(v)
  }

  const LogLevels: seq<string> := ["DEBUG", "INFO", "WARNING", "ERROR", "CRITICAL"]

  /** Accepts any capitalisation of the five levels and returns it upper-cased. */
  function ValidateLogLevel(v: string): (r: Result<string>)
    ensures r.Ok? <==> Upper(v) in LogLevels
    ensures r.Ok? ==> r.value == Upper(v) && r.value in LogLevels
  {
    if Upper(v) !in LogLevels then
      Err(Error(ValueError, "Log level must be one of: ['DEBUG', 'INFO', 'WARNING', 'ERROR', 'CRITICAL']"))
    else Ok(Upper(v))
  }

  /** Validating a log level a second time accepts it unchanged. */
  lemma LogLevelIdempotent(v: string)
    requires ValidateLogLevel(v).Ok?
    ensures ValidateLogLevel(ValidateLogLevel(v).value) == ValidateLogLevel(v)
  {
    var u := Upper(v);
    assert Upper(u) == u by {
      forall i | 0 <= i < |u| ensures UpperChar(u[i]) == u[i] {
        assert u in LogLevels;
      }
    }
  }

  /** The cross-field check: a provider key is required, and outside local
      development so is a cloud project. */
  function Validate(c: Config): (r: Outcome)
    ensures r.Pass? <==> (IsSet(c.openaiApiKey) || IsSet(c.anthropicApiKey))
                         && (c.localDevelopment || IsSet(c.googleCloudProject))
    ensures !IsSet(c.openaiApiKey) && !IsSet(c.anthropicApiKey) ==>
              r == Fail(Error(ValueError, "At least one LLM provider must be configured (OpenAI or Anthropic)"))
  {
    if !IsSet(c.openaiApiKey) && !IsSet(c.anthropicApiKey) then
      Fail(Error(ValueError, "At least one LLM provider must be configured (OpenAI or Anthropic)"))
    else if !c.localDevelopment && !IsSet(c.googleCloudProject) then
      Fail(Error(ValueError, "GOOGLE_CLOUD_PROJECT must be set for production deployment"))
    else Pass
  }

  predicate IsProduction(c: Config) {
    IsSet(c.googleCloudProject) && !c.localDevelopment
  }

  datatype Provider = OpenAI | Anthropic {
    /** The provider's name as the settings spell it. */
    function Name(): string {
      match this
      case OpenAI => "openai"
      case Anthropic => "anthropic"
    }
  }

  /** OpenAI when its key is set, otherwise Anthropic when that key is set. */
  function PrimaryLlmProvider(c: Config): (r: Result<Provider>)
    ensures r.Ok? <==> IsSet(c.openaiApiKey) || IsSet(c.anthropicApiKey)
    ensures r == Ok(Anthropic) <==> !IsSet(c.openaiApiKey) && IsSet(c.anthropicApiKey)
  {
    if IsSet(c.openaiApiKey) then Ok(OpenAI)
    else if IsSet(c.anthropicApiKey) then Ok(Anthropic)
    else Err(Error(ValueError, "No LLM provider configured"))
  }

  /** A configuration that passes `validate()` has a provider, and outside
      local development it is a production deployment. */
  lemma ValidConfigHasProvider(c: Config)
    requires Validate(c).Pass?
    ensures PrimaryLlmProvider(c).Ok?
    ensures !c.localDevelopment ==> IsProduction(c)
  {
  }

  /** The parameters handed to the language model client. */
  datatype LlmConfig = LlmConfig(
    provider: Provider,
    apiKey: string,
    model: string,
    temperature: Option<real>,
    maxTokens: int)

  /** Anthropic gets no temperature and reuses the OpenAI token limit. */
  function GetLlmConfig(c: Config): (r: Result<LlmConfig>)
    ensures r.Ok? <==> PrimaryLlmProvider(c).Ok?
    ensures r.Ok? ==> r.value.provider == PrimaryLlmProvider(c).value
                      && r.value.maxTokens == c.openaiMaxTokens
                      && (r.value.temperature.Some? <==> r.value.provider == OpenAI)
    ensures r.Ok? && r.value.provider == OpenAI ==>
              r.value.apiKey == c.openaiApiKey.value && r.value.model == c.openaiModel
    ensures r.Ok? && r.value.provider == Anthropic ==>
              r.value.apiKey == c.anthropicApiKey.value && r.value.model == c.anthropicModel
  {
    match PrimaryLlmProvider(c)
    case Err(e) => Err(e)
    case Ok(OpenAI) =>
      Ok(LlmConfig(OpenAI, c.openaiApiKey.value, c.openaiModel, Some(c.openaiTemperature), c.openaiMaxTokens))
    case Ok(Anthropic) =>
      Ok(LlmConfig(Anthropic, c.anthropicApiKey.value, c.anthropicModel, None, c.openaiMaxTokens))
  }

  /** The default values pass their own validators. */
  lemma DefaultsPassValidators(sid: string, token: string, phone: string)
    ensures ValidateMaxTokens(Defaults(sid, token, phone).openaiMaxTokens).Ok?
    ensures ValidateLogLevel(Defaults(sid, token, phone).logLevel) == Ok("INFO")
  {
    assert Upper("INFO") == "INFO";
  }
}
