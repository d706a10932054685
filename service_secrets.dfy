/** The Pulumi Service secrets manager: secrets are encrypted and decrypted by the
    service itself, and travel as standard base64 text (section 4 of RFC 4648). The
    HTTP client is opaque: it is modelled as a record of functions chosen by the
    caller. Go strings are byte strings, so a plaintext is modelled by its bytes and
    `[]byte(s)` / `string(b)` are the identity. */
module ServiceSecrets {
  import opened Wrappers
  import Base64
  import opened Workspace

  type byte = Base64.byte

  /** The manager's type tag, as recorded in a stack's state. */
  const Type: string := "service"

  datatype StackIdentifier = StackIdentifier(owner: string, project: string, stack: string)

  /** The service client: its URL, its access token, and the three calls the crypter makes. */
  datatype Client = Client(
    url: string,
    token: string,
    encrypt: (StackIdentifier, seq<byte>) -> Result<seq<byte>, string>,
    decrypt: (StackIdentifier, seq<byte>) -> Result<seq<byte>, string>,
    bulkDecrypt: (StackIdentifier, seq<seq<byte>>) -> Result<map<string, seq<byte>>, string>)

  /** `serviceCrypter`: a client bound to one stack. */
  datatype Crypter = Crypter(client: Client, stack: StackIdentifier)

  datatype CryptError = Malformed(cause: Base64.DecodeError) | ClientFailed(message: string)

  /** `serviceSecretsManagerState`, the JSON persisted in a stack's deployment. */
  datatype ManagerState = ManagerState(url: string, owner: string, project: string, stack: string)

  datatype Manager = Manager(state: ManagerState, crypter: Crypter)
  {
    /** `Type()`. */
    function TypeName(): (r: string)
      ensures r == "service"
    {
      Type
    }

    /** `State()`: the state the manager was built with. */
    function State(): (r: ManagerState)
      ensures r == state
    {
      state
    }
  }

  // ------------------------------------------------------------------ crypter

  /** `serviceCrypter.EncryptValue`: the service's ciphertext, base64-encoded. */
  function EncryptValue(c: Crypter, plaintext: seq<byte>): (r: Result<string, CryptError>)
    ensures c.client.encrypt(c.stack, plaintext).Err? ==> r == Err(ClientFailed(c.client.encrypt(c.stack, plaintext).error))
    ensures c.client.encrypt(c.stack, plaintext).Ok? ==>
      r.Ok? && Base64.Decode(r.value) == Ok(c.client.encrypt(c.stack, plaintext).value)
  {
    match c.client.encrypt(c.stack, plaintext)
    case Err(e) => Err(ClientFailed(e))
    case Ok(ciphertext) =>
      Base64.DecodeEncode(ciphertext);
      Ok(Base64.Encode(ciphertext))
  }

  /** `serviceCrypter.DecryptValue`: base64-decode first, then ask the service. */
  function DecryptValue(c: Crypter, cipherstring: string): (r: Result<seq<byte>, CryptError>)
    ensures Base64.Decode(cipherstring).Err? ==> r == Err(Malformed(Base64.Decode(cipherstring).error))
    ensures Base64.Decode(cipherstring).Ok? ==>
      var sent := Base64.Decode(cipherstring).value;
      && (c.client.decrypt(c.stack, sent).Ok? ==> r == Ok(c.client.decrypt(c.stack, sent).value))
      && (c.client.decrypt(c.stack, sent).Err? ==> r == Err(ClientFailed(c.client.decrypt(c.stack, sent).error)))
  {
    match Base64.Decode(cipherstring)
    case Err(e) => Err(Malformed(e))
    case Ok(ciphertext) =>
      match c.client.decrypt(c.stack, ciphertext)
      case Err(e) => Err(ClientFailed(e))
      case Ok(plaintext) => Ok(plaintext)
  }

  /** The service is never contacted for malformed text: any two clients give the same
      answer. */
  lemma DecryptMalformedIgnoresClient(c1: Crypter, c2: Crypter, cipherstring: string)
    requires Base64.Decode(cipherstring).Err?
    ensures DecryptValue(c1, cipherstring) == DecryptValue(c2, cipherstring)
  {
  }

  /** Whatever the service can decrypt, the crypter round-trips: the base64 envelope
      adds nothing and loses nothing. */
  lemma DecryptEncrypt(c: Crypter, plaintext: seq<byte>)
    requires c.client.encrypt(c.stack, plaintext).Ok?
    requires c.client.decrypt(c.stack, c.client.encrypt(c.stack, plaintext).value) == Ok(plaintext)
    ensures EncryptValue(c, plaintext).Ok?
    ensures DecryptValue(c, EncryptValue(c, plaintext).value) == Ok(plaintext)
  {
  }

  // ------------------------------------------------------------------ bulk decryption

  /** Every element decoded, or the first decoding error. */
  function DecodeAll(secrets: seq<string>): (r: Result<seq<seq<byte>>, Base64.DecodeError>)
    ensures r.Ok? <==> forall i :: 0 <= i < |secrets| ==> Base64.Decode(secrets[i]).Ok?
    ensures r.Ok? ==> |r.value| == |secrets|
    ensures r.Ok? ==> forall i :: 0 <= i < |secrets| ==> Base64.Decode(secrets[i]) == Ok(r.value[i])
  {
    if secrets == [] then Ok([])
    else
      match Base64.Decode(secrets[0])
      case Err(e) => Err(e)
      case Ok(head) =>
        match DecodeAll(secrets[1..])
        case Err(e) => Err(e)
        case Ok(tail) =>
          assert forall i :: 1 <= i < |secrets| ==> secrets[i] == secrets[1..][i - 1];
          Ok([head] + tail)
  }

  /** What `BulkDecrypt` answers: a malformed element fails the whole call before the
      service is asked; otherwise the service's map, values turned back into strings. */
  function BulkDecryptResult(c: Crypter, secrets: seq<string>): Result<map<string, seq<byte>>, CryptError>
  {
    match DecodeAll(secrets)
    case Err(e) => Err(Malformed(e))
    case Ok(ciphertexts) =>
      match c.client.bulkDecrypt(c.stack, ciphertexts)
      case Err(e) => Err(ClientFailed(e))
      case Ok(decrypted) => Ok(decrypted)
  }

  /** `serviceCrypter.BulkDecrypt`: decode every element into a list, call the service
      once, then copy its answer into a fresh map. */
  method BulkDecrypt(c: Crypter, secrets: seq<string>) returns (r: Result<map<string, seq<byte>>, CryptError>)
    ensures r == BulkDecryptResult(c, secrets)
  {
    var secretsToDecrypt: seq<seq<byte>> := [];
    var i := 0;
    while i < |secrets|
      invariant 0 <= i <= |secrets|
      invariant |secretsToDecrypt| == i
      invariant forall j :: 0 <= j < i ==> Base64.Decode(secrets[j]) == Ok(secretsToDecrypt[j])
    {
      var decoded := Base64.Decode(secrets[i]);
      if decoded.Err? {
        FirstMalformedFails(secrets, i);
        return Err(Malformed(decoded.error));
      }
      secretsToDecrypt := secretsToDecrypt + [decoded.value];
      i := i + 1;
    }
    assert DecodeAll(secrets) == Ok(secretsToDecrypt) by {
      DecodeAllUnique(secrets, secretsToDecrypt);
    }

    var decryptedList := c.client.bulkDecrypt(c.stack, secretsToDecrypt);
    if decryptedList.Err? {
      return Err(ClientFailed(decryptedList.error));
    }

    var decryptedSecrets: map<string, seq<byte>> := map[];
    var remaining := decryptedList.value.Keys;
    while remaining != {}
      invariant remaining <= decryptedList.value.Keys
      invariant decryptedSecrets.Keys == decryptedList.value.Keys - remaining
      invariant forall name :: name in decryptedSecrets ==> decryptedSecrets[name] == decryptedList.value[name]
      decreases remaining
    {
      var name :| name in remaining;
      decryptedSecrets := decryptedSecrets[name := decryptedList.value[name]];
      remaining := remaining - {name};
    }
    assert decryptedSecrets == decryptedList.value;
    return Ok(decryptedSecrets);
  }

  /** When element `i` is the first malformed one, `DecodeAll` fails with its error. */
  lemma {:induction false} FirstMalformedFails(secrets: seq<string>, i: int)
    requires 0 <= i < |secrets| && Base64.Decode(secrets[i]).Err?
    requires forall j :: 0 <= j < i ==> Base64.Decode(secrets[j]).Ok?
    ensures DecodeAll(secrets) == Err(Base64.Decode(secrets[i]).error)
    decreases i
  {
    if i > 0 {
      FirstMalformedFails(secrets[1..], i - 1);
    }
  }

  /** The decoded list is determined by the elements. */
  lemma DecodeAllUnique(secrets: seq<string>, decoded: seq<seq<byte>>)
    requires |decoded| == |secrets|
    requires forall j :: 0 <= j < |secrets| ==> Base64.Decode(secrets[j]) == Ok(decoded[j])
    ensures DecodeAll(secrets) == Ok(decoded)
  {
    var r := DecodeAll(secrets);
    assert r.Ok?;
    forall j | 0 <= j < |secrets| ensures r.value[j] == decoded[j] {
      assert Base64.Decode(secrets[j]) == Ok(r.value[j]);
    }
    assert r.value == decoded;
  }

  /** A single malformed element makes the whole call fail without the service. */
  lemma BulkDecryptMalformedIgnoresClient(c1: Crypter, c2: Crypter, secrets: seq<string>, i: int)
    requires 0 <= i < |secrets| && Base64.Decode(secrets[i]).Err?
    ensures BulkDecryptResult(c1, secrets).Err? && BulkDecryptResult(c1, secrets).error.Malformed?
    ensures BulkDecryptResult(c1, secrets) == BulkDecryptResult(c2, secrets)
  {
  }

  /** On success the service receives exactly the decoded elements, in order, and its
      map is returned key for key. */
  lemma BulkDecryptSendsDecoded(c: Crypter, secrets: seq<string>)
    requires BulkDecryptResult(c, secrets).Ok?
    ensures forall i :: 0 <= i < |secrets| ==> Base64.Decode(secrets[i]).Ok?
    ensures c.client.bulkDecrypt(c.stack, seq(|secrets|, i requires 0 <= i < |secrets| => Base64.Decode(secrets[i]).value))
            == Ok(BulkDecryptResult(c, secrets).value)
  {
    var ds := seq(|secrets|, i requires 0 <= i < |secrets| => Base64.Decode(secrets[i]).value);
    assert DecodeAll(secrets).value == ds;
  }

  // ------------------------------------------------------------------ manager construction

  /** `changeProjectStackSecretDetails`: clear the three provider fields and report
      whether any of them had to change. */
  method ChangeProjectStackSecretDetails(info: ProjectStack) returns (requiresSave: bool)
    modifies info
    ensures info.Settings() == NoSecretsSettings
    ensures info.config == old(info.config)
    ensures requiresSave <==> old(info.Settings()).HasProviderDetails()
  {
    requiresSave := false;
    if info.secretsProvider != "" {
      info.secretsProvider := "";
      requiresSave := true;
    }
    if info.encryptedKey != "" {
      info.encryptedKey := "";
      requiresSave := true;
    }
    if info.encryptionSalt != "" {
      info.encryptionSalt := "";
      requiresSave := true;
    }
  }

  /** Clearing is idempotent: a second call finds nothing to clear. */
  method ChangeTwiceReportsNoChange(info: ProjectStack) returns (first: bool, second: bool)
    modifies info
    ensures first <==> old(info.Settings()).HasProviderDetails()
    ensures !second
    ensures info.Settings() == NoSecretsSettings && info.config == old(info.config)
  {
    first := ChangeProjectStackSecretDetails(info);
    second := ChangeProjectStackSecretDetails(info);
  }

  /** `NewServiceSecretsManager`. Locating and loading the stack's settings file is done
      by the caller and arrives as `loaded`; `saveError` is what writing the file back
      would report. Returns the manager (or error) and whether a save was attempted. */
  method NewServiceSecretsManager(client: Client, id: StackIdentifier, stackName: string,
                                  loaded: Result<ProjectStack, string>, saveError: Option<string>)
    returns (r: Result<Manager, string>, saved: bool)
    requires stackName != ""
    modifies if loaded.Ok? then {loaded.value} else {}
    ensures loaded.Err? ==> r == Err(loaded.error) && !saved
    ensures loaded.Ok? ==> saved == old(loaded.value.Settings()).HasProviderDetails()
    ensures loaded.Ok? ==> loaded.value.Settings() == NoSecretsSettings && loaded.value.config == old(loaded.value.config)
    ensures saved && saveError.Some? ==> r == Err(saveError.value)
    ensures r.Ok? <==> loaded.Ok? && (!saved || saveError.None?)
    ensures r.Ok? ==> r.value.state == ManagerState(client.url, id.owner, id.project, id.stack)
    ensures r.Ok? ==> r.value.crypter.stack == id && r.value.crypter.client.url == client.url
  {
    saved := false;
    if loaded.Err? {
      return Err(loaded.error), saved;
    }
    var info := loaded.value;
    var changed := ChangeProjectStackSecretDetails(info);
    if changed {
      saved := true;
      if saveError.Some? {
        return Err(saveError.value), saved;
      }
    }
    r := Ok(Manager(ManagerState(client.url, id.owner, id.project, id.stack), Crypter(client, id)));
  }

  /** The account stored for a service URL (only its token is used). */
  datatype Account = Account(accessToken: string)

  function MissingTokenError(url: string): string {
    "could not find access token for " + url + ", have you logged in?"
  }

  /** `NewServiceSecretsManagerFromState`: `state` is the outcome of unmarshalling the
      persisted JSON, `accounts` the stored credentials, `connect` the client factory. */
  function NewServiceSecretsManagerFromState(state: Result<ManagerState, string>,
                                             accounts: string -> Result<Account, string>,
                                             connect: (string, string) -> Client): (r: Result<Manager, string>)
    ensures state.Err? ==> r == Err("unmarshalling state: " + state.error)
    ensures state.Ok? && accounts(state.value.url).Err? ==> r == Err("getting access token: " + accounts(state.value.url).error)
    ensures state.Ok? && accounts(state.value.url).Ok? && accounts(state.value.url).value.accessToken == "" ==>
      r == Err(MissingTokenError(state.value.url))
    ensures r.Ok? <==> state.Ok? && accounts(state.value.url).Ok? && accounts(state.value.url).value.accessToken != ""
    ensures r.Ok? ==> r.value.State() == state.value
    ensures r.Ok? ==> r.value.crypter.stack == StackIdentifier(state.value.owner, state.value.project, state.value.stack)
    ensures r.Ok? ==> r.value.crypter.client == connect(state.value.url, accounts(state.value.url).value.accessToken)
  {
    match state
    case Err(e) => Err("unmarshalling state: " + e)
    case Ok(s) =>
      match accounts(s.url)
      case Err(e) => Err("getting access token: " + e)
      case Ok(account) =>
        var token := account.accessToken;
        if token == "" then Err(MissingTokenError(s.url))
        else
          var id := StackIdentifier(s.owner, s.project, s.stack);
          Ok(Manager(s, Crypter(connect(s.url, token), id)))
  }

  /** A manager built by `NewServiceSecretsManager` can be rebuilt from the state it
      persists, addressing the same stack at the same URL, once its user is logged in. */
  lemma StateRoundTrip(m: Manager, accounts: string -> Result<Account, string>, connect: (string, string) -> Client)
    requires m.crypter.stack == StackIdentifier(m.state.owner, m.state.project, m.state.stack)
    requires accounts(m.state.url).Ok? && accounts(m.state.url).value.accessToken != ""
    requires connect(m.state.url, accounts(m.state.url).value.accessToken).url == m.state.url
    ensures NewServiceSecretsManagerFromState(Ok(m.State()), accounts, connect).Ok?
    ensures
      var m' := NewServiceSecretsManagerFromState(Ok(m.State()), accounts, connect).value;
      m'.state == m.state && m'.crypter.stack == m.crypter.stack && m'.crypter.client.url == m.state.url
  {
  }
}
