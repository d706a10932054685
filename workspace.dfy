/** The part of a stack's settings file (`Pulumi.<stack>.yaml`, Go type
    `workspace.ProjectStack`) that the secrets code reads and edits. Loading and saving
    the file are not part of this model; callers receive their outcome as values. */
module Workspace {

  /** The three secrets-related settings as a value. */
  datatype SecretsSettings = SecretsSettings(secretsProvider: string, encryptedKey: string, encryptionSalt: string)
  {
    /** Some secrets provider has left details behind. */
    predicate HasProviderDetails() {
      secretsProvider != "" || encryptedKey != "" || encryptionSalt != ""
    }
  }

  const NoSecretsSettings := SecretsSettings("", "", "")

  /** A loaded project-stack settings file; the secrets code edits its fields in place. */
  class ProjectStack {
    var secretsProvider: string
    var encryptedKey: string
    var encryptionSalt: string
    /** Every other setting (the stack's configuration, its environment imports, ...). */
    var config: map<string, string>

    constructor (secretsProvider: string, encryptedKey: string, encryptionSalt: string, config: map<string, string>)
      ensures this.secretsProvider == secretsProvider && this.encryptedKey == encryptedKey
      ensures this.encryptionSalt == encryptionSalt && this.config == config
    {
      this.secretsProvider := secretsProvider;
      this.encryptedKey := encryptedKey;
      this.encryptionSalt := encryptionSalt;
      this.config := config;
    }

    function Settings(): SecretsSettings
      reads this
    {
      SecretsSettings(secretsProvider, encryptedKey, encryptionSalt)
    }
  }
}
