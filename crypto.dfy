/** How the CLI picks the secrets manager of a stack (`getStackSecretsManager`), and
    how it validates a `--secrets-provider` argument. The project file, the stack's
    settings file and the manager constructors are collaborators whose outcomes the
    caller supplies. */
module Crypto {
  import opened Wrappers
  import opened Workspace
  import Paths

  /** `passphrase.Type`. */
  const PassphraseType: string := "passphrase"

  /** Which constructor the cascade picks. */
  datatype Choice = CloudChoice(provider: string) | PassphraseChoice | DefaultChoice

  /** A constructed manager: the constructor chosen, for which stack and settings
      file; `Caching` is `stack.NewCachingSecretsManager` around another manager. */
  datatype SecretsManager = Built(choice: Choice, stackName: string, configFile: string)
                          | Caching(inner: SecretsManager)

  /** What `Encrypter()` and `Decrypter()` hand out: the manager's own crypter. */
  datatype Crypter = EncrypterOf(manager: SecretsManager) | DecrypterOf(manager: SecretsManager)

  /** Collaborators of `getStackSecretsManager`: `readProject` (the project's name),
      `loadProjectStack`, `getProjectStackPath`, the failure (if any) of each
      constructor, and the failure (if any) of fetching a manager's crypter. */
  datatype Environment = Environment(
    project: Result<string, string>,
    loadProjectStack: string -> Result<SecretsSettings, string>,
    configFile: Result<string, string>,
    constructError: (Choice, string) -> Option<string>,
    crypterError: SecretsManager -> Option<string>)

  /** The fixed cascade: a provider other than passphrase, "default" or none means a
      cloud KMS manager; else a salt means the passphrase manager; else the default. */
  function ChooseManager(s: SecretsSettings): (c: Choice)
    ensures c.CloudChoice? <==> s.secretsProvider != PassphraseType && s.secretsProvider != "default" && s.secretsProvider != ""
    ensures c.CloudChoice? ==> c.provider == s.secretsProvider
    ensures c.PassphraseChoice? <==> !c.CloudChoice? && s.encryptionSalt != ""
    ensures c.DefaultChoice? <==> !c.CloudChoice? && s.encryptionSalt == ""
  {
    if s.secretsProvider != PassphraseType && s.secretsProvider != "default" && s.secretsProvider != "" then
      CloudChoice(s.secretsProvider)
    else if s.encryptionSalt != "" then
      PassphraseChoice
    else
      DefaultChoice
  }

  /** A cloud provider wins whatever salt or key is also present. */
  lemma CloudIgnoresSalt(s: SecretsSettings, salt: string, key: string)
    requires ChooseManager(s).CloudChoice?
    ensures ChooseManager(SecretsSettings(s.secretsProvider, key, salt)) == ChooseManager(s)
  {
  }

  /** Settings cleared the way the service manager clears them always resolve to the
      default manager: no stale provider or salt can select another type. */
  lemma ClearedSettingsResolveToDefault()
    ensures ChooseManager(NoSecretsSettings) == DefaultChoice
  {
  }

  /** `getStackSecretsManager`. */
  function GetStackSecretsManager(env: Environment, stackName: string): (r: Result<SecretsManager, string>)
    ensures env.project.Err? ==> r == Err(env.project.error)
    ensures env.project.Ok? && env.loadProjectStack(env.project.value).Err? ==>
      r == Err(env.loadProjectStack(env.project.value).error)
    ensures env.project.Ok? && env.loadProjectStack(env.project.value).Ok? && env.configFile.Err? ==>
      r == Err(env.configFile.error)
    ensures (&& env.project.Ok? && env.loadProjectStack(env.project.value).Ok? && env.configFile.Ok?
             && env.constructError(ChooseManager(env.loadProjectStack(env.project.value).value), env.configFile.value).Some?) ==>
      r == Err(env.constructError(ChooseManager(env.loadProjectStack(env.project.value).value), env.configFile.value).value)
    ensures r.Ok? ==> r.value.Caching? && r.value.inner.Built?
    ensures r.Ok? ==>
      && env.project.Ok? && env.loadProjectStack(env.project.value).Ok? && env.configFile.Ok?
      && r.value.inner == Built(ChooseManager(env.loadProjectStack(env.project.value).value), stackName, env.configFile.value)
      && env.constructError(r.value.inner.choice, env.configFile.value).None?
  {
    match env.project
    case Err(e) => Err(e)
    case Ok(project) =>
      match env.loadProjectStack(project)
      case Err(e) => Err(e)
      case Ok(ps) =>
        match env.configFile
        case Err(e) => Err(e)
        case Ok(configFile) =>
          var choice := ChooseManager(ps);
          match env.constructError(choice, configFile)
          case Some(e) => Err(e)
          case None => Ok(Caching(Built(choice, stackName, configFile)))
  }

  /** Resolution fails exactly when one of its four steps fails, and then reports that
      step's error. */
  lemma GetStackSecretsManagerFails(env: Environment, stackName: string)
    ensures GetStackSecretsManager(env, stackName).Err? <==>
      || env.project.Err?
      || env.loadProjectStack(env.project.value).Err?
      || env.configFile.Err?
      || env.constructError(ChooseManager(env.loadProjectStack(env.project.value).value), env.configFile.value).Some?
    ensures env.project.Ok? && env.loadProjectStack(env.project.value).Ok? && env.configFile.Err? ==>
      GetStackSecretsManager(env, stackName) == Err(env.configFile.error)
    ensures (&& env.project.Ok? && env.loadProjectStack(env.project.value).Ok? && env.configFile.Ok?
             && env.constructError(ChooseManager(env.loadProjectStack(env.project.value).value), env.configFile.value).Some?) ==>
      GetStackSecretsManager(env, stackName)
        == Err(env.constructError(ChooseManager(env.loadProjectStack(env.project.value).value), env.configFile.value).value)
  {
  }

  /** `getStackEncrypter`: resolution errors pass through unchanged; after a successful
      resolution it succeeds exactly when the manager's `Encrypter()` does, and otherwise
      returns that call's error. */
  function GetStackEncrypter(env: Environment, stackName: string): (r: Result<Crypter, string>)
    ensures GetStackSecretsManager(env, stackName).Err? ==> r == Err(GetStackSecretsManager(env, stackName).error)
    ensures GetStackSecretsManager(env, stackName).Ok? ==>
      (r.Ok? <==> env.crypterError(GetStackSecretsManager(env, stackName).value).None?)
    ensures GetStackSecretsManager(env, stackName).Ok? && r.Err? ==>
      r.error == env.crypterError(GetStackSecretsManager(env, stackName).value).value
    ensures r.Ok? ==> r.value == EncrypterOf(GetStackSecretsManager(env, stackName).value)
  {
    match GetStackSecretsManager(env, stackName)
    case Err(e) => Err(e)
    case Ok(sm) =>
      match env.crypterError(sm)
      case Some(e) => Err(e)
      case None => Ok(EncrypterOf(sm))
  }

  /** `getStackDecrypter`: the same, with the manager's `Decrypter()`. */
  function GetStackDecrypter(env: Environment, stackName: string): (r: Result<Crypter, string>)
    ensures GetStackSecretsManager(env, stackName).Err? ==> r == Err(GetStackSecretsManager(env, stackName).error)
    ensures GetStackSecretsManager(env, stackName).Ok? ==>
      (r.Ok? <==> env.crypterError(GetStackSecretsManager(env, stackName).value).None?)
    ensures GetStackSecretsManager(env, stackName).Ok? && r.Err? ==>
      r.error == env.crypterError(GetStackSecretsManager(env, stackName).value).value
    ensures r.Ok? ==> r.value == DecrypterOf(GetStackSecretsManager(env, stackName).value)
  {
    match GetStackSecretsManager(env, stackName)
    case Err(e) => Err(e)
    case Ok(sm) =>
      match env.crypterError(sm)
      case Some(e) => Err(e)
      case None => Ok(DecrypterOf(sm))
  }

  // ------------------------------------------------------------------ provider validation

  /** The kinds `--secrets-provider` accepts. */
  const SupportedKinds: seq<string> := ["default", "passphrase", "awskms", "azurekeyvault", "gcpkms", "hashivault"]

  /** `strings.SplitN(typ, ":", 2)[0]`: the text before the first colon, or all of it. */
  function Kind(typ: string): (r: string)
    ensures |r| <= |typ| && r == typ[..|r|]
    ensures ':' !in r
    ensures |r| < |typ| ==> typ[|r|] == ':'
  {
    Paths.BeforeFirst(typ, ':')
  }

  /** The kind is whatever precedes the first colon, whatever follows it. */
  lemma KindOfQualified(kind: string, rest: string)
    requires ':' !in kind
    ensures Kind(kind + ":" + rest) == kind
  {
    Paths.BeforeFirstOfJoined(kind, ':', rest);
  }

  /** `strings.Join(elems, sep)`. */
  function Join(elems: seq<string>, sep: string): string {
    if elems == [] then ""
    else if |elems| == 1 then elems[0]
    else elems[0] + sep + Join(elems[1..], sep)
  }

  function UnknownProviderError(kind: string): string {
    "unknown secrets provider type '" + kind + "' (supported values: " + Join(SupportedKinds, ",") + ")"
  }

  /** `validateSecretsProvider`: `None` is a nil error. */
  function ValidateSecretsProvider(typ: string): (r: Option<string>)
    ensures r.None? <==> exists i :: 0 <= i < |SupportedKinds| && SupportedKinds[i] == Kind(typ)
    ensures r.Some? ==> r.value == UnknownProviderError(Kind(typ))
  {
    if Kind(typ) in SupportedKinds then None else Some(UnknownProviderError(Kind(typ)))
  }

  /** A provider URL is judged by its scheme alone. */
  lemma ValidateQualifiedProvider(kind: string, rest: string)
    requires ':' !in kind
    ensures ValidateSecretsProvider(kind + ":" + rest).None? <==> kind in SupportedKinds
  {
    KindOfQualified(kind, rest);
  }

  /** A KMS URL is judged by its scheme, which is supported. */
  lemma ValidateKmsExample()
    ensures ValidateSecretsProvider("awskms" + ":" + "//alias/ExampleAlias?region=us-east-1").None?
  {
    KindOfQualified("awskms", "//alias/ExampleAlias?region=us-east-1");
    assert SupportedKinds[2] == "awskms";
  }

  /** The service manager's own type is not a valid `--secrets-provider`, and the
      message names it. */
  lemma ValidateServiceExample()
    ensures ValidateSecretsProvider("service") == Some(UnknownProviderError("service"))
  {
    KindOfUnqualified("service");
    forall i | 0 <= i < |SupportedKinds| ensures SupportedKinds[i] != "service" {
      if |SupportedKinds[i]| == 7 {
        assert SupportedKinds[i][0] != 's';
      }
    }
  }

  /** Text without a colon is its own kind. */
  lemma KindOfUnqualified(kind: string)
    requires ':' !in kind
    ensures Kind(kind) == kind
  {
    Paths.BeforeFirstOfWhole(kind, ':');
  }
}
