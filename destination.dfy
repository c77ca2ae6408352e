/**
 * Where the Papertrail syslog destination comes from: the environment
 * first, then an optional local `logging_secrets` module. The environment
 * and the module are inputs here; Python exceptions become `Resolution`
 * cases.
 */
module Destination {
  import opened Wrappers
  import opened PyInt

  /** The environment variable, and the `logging_secrets` attribute, holding the host. */
  const HostVariable := "PAPERTRAIL_HOST"
  /** The environment variable, and the `logging_secrets` attribute, holding the port. */
  const PortVariable := "PAPERTRAIL_PORT"

  /** `os.environ`: variable name to value. */
  type Environment = map<string, string>

  /** A module attribute's value: a string, an integer, or `None`. */
  datatype Value = Str(s: string) | Int(i: int) | NoneValue

  /** The `logging_secrets` module: `None` when it cannot be imported, else its attributes. */
  type Secrets = Option<map<string, Value>>

  /** The outcome of Python's `int(v)`. */
  datatype Conversion = Converted(n: int) | ValueError(text: string) | TypeError

  function IntOf(v: Value): (c: Conversion)
    ensures v.Int? ==> c == Converted(v.i)
    ensures c.TypeError? <==> v.NoneValue?
    ensures c.ValueError? ==> v.Str? && c.text == v.s && ParseInt(v.s).None?
    ensures v.Str? && c.Converted? ==> ParseInt(v.s) == Some(c.n)
  {
    match v
    case Int(i) => Converted(i)
    case Str(s) => (match ParseInt(s) case Some(n) => Converted(n) case None => ValueError(s))
    case NoneValue => TypeError
  }

  /** A module port written as an integer, or as its decimal text, converts alike. */
  lemma IntOfDecimalText(n: int)
    ensures IntOf(Str(Show(n))) == IntOf(Int(n)) == Converted(n)
  {
    ParseShow(n);
  }

  /** The lookup failure that `MissingCredentials` is raised from. */
  datatype LookupFailure =
    | SecretsNotImportable           // ImportError from `import logging_secrets`
    | SecretMissing(name: string)    // AttributeError on `logging_secrets.<name>`

  datatype Resolution =
    | Resolved(host: Value, port: int)
    | MissingCredentials(cause: LookupFailure)
    | PortValueError(text: string)   // `int()` raised ValueError; not caught
    | PortTypeError                  // `int()` raised TypeError; not caught

  /** Both variables are set, so the environment is used. */
  predicate EnvComplete(env: Environment) {
    HostVariable in env && PortVariable in env
  }

  /** The module imports and has both attributes, so it is used. */
  predicate SecretsComplete(secrets: Secrets) {
    secrets.Some? && HostVariable in secrets.value && PortVariable in secrets.value
  }

  /** `r` is the host and parsed port taken from the environment. */
  predicate FromEnv(env: Environment, r: Resolution) {
    && r.Resolved?
    && EnvComplete(env)
    && r.host == Str(env[HostVariable])
    && ParseInt(env[PortVariable]) == Some(r.port)
  }

  /** `r` is the host and converted port taken from `logging_secrets`. */
  predicate FromSecrets(secrets: Secrets, r: Resolution) {
    && r.Resolved?
    && SecretsComplete(secrets)
    && r.host == secrets.value[HostVariable]
    && IntOf(secrets.value[PortVariable]) == Converted(r.port)
  }

  /**
   * `_get_logging_destination()`. Each step mirrors a lookup of the source in
   * order; a missing variable (KeyError) falls through to the module, a
   * missing module or attribute is `MissingCredentials`, and a port that
   * `int()` rejects escapes uncaught.
   */
  function Resolve(env: Environment, secrets: Secrets): (r: Resolution)
    ensures r.MissingCredentials? <==> !EnvComplete(env) && !SecretsComplete(secrets)
    ensures r.Resolved? ==> FromEnv(env, r) || (!EnvComplete(env) && FromSecrets(secrets, r))
    ensures r.PortTypeError? ==> !EnvComplete(env)
    ensures EnvComplete(env) && ParseInt(env[PortVariable]).Some? ==>
      r == Resolved(Str(env[HostVariable]), ParseInt(env[PortVariable]).value)
    ensures !EnvComplete(env) && SecretsComplete(secrets) && IntOf(secrets.value[PortVariable]).Converted? ==>
      r == Resolved(secrets.value[HostVariable], IntOf(secrets.value[PortVariable]).n)
  {
    if HostVariable in env && PortVariable in env then
      match ParseInt(env[PortVariable])
      case Some(port) => Resolved(Str(env[HostVariable]), port)
      case None => PortValueError(env[PortVariable])
    else
      match secrets
      case None => MissingCredentials(SecretsNotImportable)
      case Some(attrs) =>
        if HostVariable !in attrs then MissingCredentials(SecretMissing(HostVariable))
        else if PortVariable !in attrs then MissingCredentials(SecretMissing(PortVariable))
        else
          match IntOf(attrs[PortVariable])
          case Converted(port) => Resolved(attrs[HostVariable], port)
          case ValueError(text) => PortValueError(text)
          case TypeError => PortTypeError
  }

  /** A complete environment with a parseable port wins, whatever the module holds; no range check. */
  lemma EnvironmentWins(env: Environment, secrets: Secrets, port: int)
    requires EnvComplete(env) && ParseInt(env[PortVariable]) == Some(port)
    ensures Resolve(env, secrets) == Resolved(Str(env[HostVariable]), port)
  {
  }

  /** A malformed port in a complete environment is a parse error, and the module is never consulted. */
  lemma MalformedEnvironmentPort(env: Environment, secrets: Secrets, other: Secrets)
    requires EnvComplete(env) && ParseInt(env[PortVariable]).None?
    ensures Resolve(env, secrets) == PortValueError(env[PortVariable])
    ensures Resolve(env, secrets) == Resolve(env, other)
  {
  }

  /** Without the host variable, the port variable is never read: its value makes no difference. */
  lemma PortIgnoredWithoutHost(env: Environment, secrets: Secrets, port: string)
    requires HostVariable !in env
    ensures Resolve(env[PortVariable := port], secrets) == Resolve(env - {PortVariable}, secrets)
  {
  }

  /** With either variable missing, the environment contributes nothing: both values come from the module. */
  lemma IncompleteEnvironmentUsesSecrets(env: Environment, secrets: Secrets)
    requires !EnvComplete(env)
    ensures Resolve(env, secrets) == Resolve(map[], secrets)
  {
  }

  /** An unimportable module, or one missing either attribute, is `MissingCredentials` with that cause. */
  lemma SecretsLookupFailures(env: Environment, attrs: map<string, Value>)
    requires !EnvComplete(env)
    ensures Resolve(env, None) == MissingCredentials(SecretsNotImportable)
    ensures HostVariable !in attrs ==> Resolve(env, Some(attrs)) == MissingCredentials(SecretMissing(HostVariable))
    ensures HostVariable in attrs && PortVariable !in attrs ==>
      Resolve(env, Some(attrs)) == MissingCredentials(SecretMissing(PortVariable))
  {
  }

  /** A module port that is present but not an integer escapes as a parse error, not `MissingCredentials`. */
  lemma MalformedSecretsPort(env: Environment, attrs: map<string, Value>)
    requires !EnvComplete(env) && SecretsComplete(Some(attrs))
    ensures attrs[PortVariable].Str? && ParseInt(attrs[PortVariable].s).None? ==>
      Resolve(env, Some(attrs)) == PortValueError(attrs[PortVariable].s)
    ensures attrs[PortVariable] == NoneValue ==> Resolve(env, Some(attrs)) == PortTypeError
  {
  }

  /** Example scenarios, with concrete values. */
  lemma ResolveExamples(secrets: Secrets)
    ensures Resolve(map[HostVariable := "logs.example.com", PortVariable := "1234"], secrets)
      == Resolved(Str("logs.example.com"), 1234)
    ensures Resolve(map[], None) == MissingCredentials(SecretsNotImportable)
    ensures Resolve(map[HostVariable := "logs.example.com"], None) == MissingCredentials(SecretsNotImportable)
    ensures Resolve(map[HostVariable := "logs.example.com", PortVariable := "notanumber"], secrets)
      == PortValueError("notanumber")
  {
    ParsePortExample();
    ParseWordExample();
    var full := map[HostVariable := "logs.example.com", PortVariable := "1234"];
    assert EnvComplete(full) && full[PortVariable] == "1234";
    var partial := map[HostVariable := "logs.example.com"];
    assert PortVariable !in partial;
    var bad := map[HostVariable := "logs.example.com", PortVariable := "notanumber"];
    assert EnvComplete(bad) && bad[PortVariable] == "notanumber";
  }

  /** Example scenarios where the environment is incomplete and `logging_secrets` supplies both values. */
  lemma ResolveFromSecretsExamples()
    ensures Resolve(map[], Some(map[HostVariable := Str("logs.example.com"), PortVariable := Int(1234)]))
      == Resolved(Str("logs.example.com"), 1234)
    ensures Resolve(map[HostVariable := "ignored.example.com"],
                    Some(map[HostVariable := Str("logs.example.com"), PortVariable := Str("1234")]))
      == Resolved(Str("logs.example.com"), 1234)
  {
    ParsePortExample();
    var byInt := map[HostVariable := Str("logs.example.com"), PortVariable := Int(1234)];
    assert SecretsComplete(Some(byInt)) && byInt[PortVariable] == Int(1234);
    var byStr := map[HostVariable := Str("logs.example.com"), PortVariable := Str("1234")];
    assert SecretsComplete(Some(byStr)) && byStr[PortVariable] == Str("1234");
    assert PortVariable !in map[HostVariable := "ignored.example.com"];
  }
}
