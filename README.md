# Pulumi: self-managed backend, service secrets and output algebra, in Dafny

This project models four parts of Pulumi, the infrastructure-as-code tool, and proves
properties of the model.

1. **The self-managed ("filestate") backend** keeps every stack in a blob bucket, which
   may be a local `file://` directory or a cloud bucket. The model covers:
   - how a stack reference is printed;
   - how the layout version picks the reference store;
   - how `file://` URLs are normalised;
   - the lock-guarded `RemoveStack` and `renameStack`;
   - the legacy-to-project `Upgrade`;
   - force-cancelling an update by deleting its lock markers;
   - listing the projects;
   - the error ranking at the end of `apply`.

   The backend is a class, `Filestate.LocalBackend`. Its state is:
   - the bucket's objects (`map<string, Object>`);
   - the reference store in use;
   - the current project;
   - the lock identifier;
   - a ghost trace of the observable steps, in order.

   Each method is proved to do exactly what a function of `BackendSpec` computes. The
   properties themselves are lemmas about those functions: locking, ordering, frames,
   refusal before any write, and stop-at-first-error.
2. **The Pulumi Service secrets manager.** It clears a stack's provider fields, in
   place, on a `Workspace.ProjectStack` object, and reports whether anything changed.
   It wraps an opaque encrypt/decrypt client in base64 (standard alphabet with padding,
   section 4 of RFC 4648). The client is not contacted for malformed input. It can also
   be rebuilt from its persisted state.
3. **Secrets-manager resolution in the CLI.** A fixed cascade chooses the cloud,
   passphrase or default manager. The result is always wrapped in a caching manager.
   `--secrets-provider` values are validated by their text before the first `:`.
4. **The Python SDK's `Output` algebra.** `OutputData` holds a resource set, a value that
   may be `UNKNOWN`, and a secret flag. `apply`, `all`, `secret`, `unsecret`, `future`,
   `from_input` and the `_map*_output` helpers become pure functions: resources are
   unioned, secrecy is or-ed, unknown absorbs, and callbacks are skipped on unknown
   values.

Modules:
- `Wrappers`: `Option` and `Result`.
- `Paths`: prefix and split helpers.
- `Base64`: the codec and its round trip.
- `References`: references, rendering and the version switch.
- `BlobPath`: `massageBlobPath`.
- `Bucket`: objects, faults, the `.pulumi/` layout and the bucket primitives.
- `BackendSpec`: the backend operations as functions, and their lemmas.
- `Filestate`: the backend class.
- `Workspace`: the project-stack settings.
- `ServiceSecrets`: the service secrets manager.
- `Crypto`: secrets-manager resolution in the CLI.
- `Output`: the output algebra.

## Model

| member | source | states |
|---|---|---|
| References.String | pkg/backend/filestate/backend.go:117-132 | The bare name when the project is empty or is the current project, else `organization/<project>/<name>` |
| References.FullyQualifiedName | pkg/backend/filestate/backend.go:142-147 | The bare name for a legacy reference, else always `organization/<project>/<name>`: the project is never elided |
| References.StringElidesExactly | pkg/backend/filestate/backend.go:117-132 | The printed form is the bare name if and only if the project is empty or current |
| References.StringWithoutCurrentProject | pkg/backend/filestate/backend.go:117-147 | Outside the current project, and always with no current project, `String` equals `FullyQualifiedName` |
| References.FullyQualifiedNameInjective | pkg/backend/filestate/backend.go:142-147 | Two valid references with the same fully qualified name have the same name and project; a legacy name is never confused with a project-scoped one |
| References.SelectStore | pkg/backend/filestate/backend.go:234-245 | Version 0 selects the legacy store, 1 the project store; any other version is the "state store unsupported" error naming the version |
| References.SelectStoreInvertsVersion | pkg/backend/filestate/backend.go:234-245 | The switch accepts exactly 0 and 1 and inverts the version each store writes |
| Filestate.LocalBackend.New | pkg/backend/filestate/backend.go:224-264 | The backend exists if and only if the version is supported, and then holds the selected store and the given bucket, project and lock ID. An unsupported version is an error with no warnings. Legacy-file warnings appear only in project mode and only when the stacks directory lists: then there is exactly one per legacy stack file, in listing order, and every legacy checkpoint in the bucket is warned about |
| Filestate.LegacyWarningsCoverBucket | pkg/backend/filestate/backend.go:252-261 | Every legacy checkpoint file directly in the stacks directory gets its warning from the legacy references of a listing of that directory |
| Filestate.LocalBackend.SetCurrentProject | pkg/backend/filestate/backend.go:390-392 | Sets the current project and nothing else |
| Filestate.LocalBackend.Render | pkg/backend/filestate/backend.go:117-132 | With the backend's current project, the bare name appears exactly when the project is empty or current |
| BlobPath.MassageBlobPathAsWritten | pkg/backend/filestate/backend.go:313-353 | `massageBlobPath` as written (see Findings) |
| BlobPath.AsWrittenDropsCharacter | pkg/backend/filestate/backend.go:326-336 | As written, `file://~alice/x` becomes the current user's home joined with `lice/x` |
| BlobPath.MassageBlobPath | pkg/backend/filestate/backend.go:313-353 | Non-`file://` URLs are returned unchanged. A successful result keeps the `file://` prefix. With a non-`/` separator the rest starts with `/` and holds no separator |
| BlobPath.ToSlash | pkg/backend/filestate/backend.go:345 | Same length; each separator becomes `/` and every other character is kept |
| BlobPath.FinishShape | pkg/backend/filestate/backend.go:339-352 | Absolutising and slashing yields `file://` followed by a rooted, separator-free path |
| BlobPath.MassageBlobPathExpandsHome | pkg/backend/filestate/backend.go:326-334 | `~` is the home directory; `~/x`, and `~` followed by the host's separator and `x`, are home joined with `x` |
| BlobPath.MassageBlobPathKeepsNamedUser | pkg/backend/filestate/backend.go:326-336 | Corrected: `~alice/x` (a `~` followed by neither `/` nor the host's separator) is absolutised as written, with no character dropped |
| BlobPath.MassageBlobPathAgrees | pkg/backend/filestate/backend.go:313-353 | The corrected and as-written versions agree on every input except `~` followed by something other than `/` or the host's separator |
| Bucket.Read | pkg/backend/filestate/backend.go:278 | A read succeeds if and only if the key is present and not faulted, and returns the stored object |
| Bucket.Exists | pkg/backend/filestate/backend.go:626-629 | An existence check fails if and only if the key has a real fault. A missing object, including one another process removed (a NotFound fault), reports false; otherwise the answer is membership |
| Bucket.Write | pkg/backend/filestate/backend.go:302 | A write succeeds if and only if the key is not faulted, and then updates exactly that key |
| Bucket.Delete | pkg/backend/filestate/backend.go:1112-1119 | A delete succeeds if and only if the key is present and not faulted, and removes exactly that key; a missing key reports NotFound |
| Bucket.ListedFileIsKey | pkg/backend/filestate/backend.go:1097 | A file entry of a listing is a bucket key inside the listed directory |
| Bucket.ListedFileKeyShape | pkg/backend/filestate/backend.go:1097 | A file entry's key is the directory joined with its name |
| Bucket.KeyIsListedFile | pkg/backend/filestate/backend.go:1097 | Every key directly inside a directory is listed as a file entry |
| Bucket.Backup | pkg/backend/filestate/backend.go:647-648 | A backup touches only the file and its `.bak` copy. With `keepOriginal` the file is untouched. A file that is gone afterwards is held by its `.bak` copy: the original is removed only once its copy is written |
| Bucket.BackupMoves | pkg/backend/filestate/backend.go:646-648 | With no faults, the `.bak` copy holds the file. Without `keepOriginal` the file is gone; with it, the file stays |
| Bucket.MoveHistory | pkg/backend/filestate/backend.go:651-653 | A missing history is not an error. Otherwise the history moves to the new key. A failure comes only from a real fault on either key |
| Bucket.LayoutInBookkeeping | pkg/backend/filestate/backend.go:151-153 | Stack files, their backups, histories and lock markers all lie under `.pulumi/` |
| Bucket.ManifestOutsideBookkeeping | pkg/backend/filestate/backend.go:302 | The manifest `Upgrade` writes is not under `.pulumi/` |
| Bucket.LayoutKeysDistinct | pkg/backend/filestate/backend.go:151-153 | Stack files, backups, histories and lock markers never share a key |
| BackendSpec.LockStep | pkg/backend/filestate/backend.go:613-617 | The lock is taken if and only if the listing works, no other instance holds a marker, and the marker can be written. On failure nothing changes |
| BackendSpec.UnlockStep | pkg/backend/filestate/backend.go:617 | Unlocking never reports an error and removes this instance's marker when it can |
| BackendSpec.GetCheckpoint | pkg/backend/filestate/backend.go:620-623 | Loading succeeds if and only if the stack file reads and is a checkpoint, and returns it |
| BackendSpec.SaveStackStep | pkg/backend/filestate/backend.go:642-644 | Saving backs up the file (keeping it) and writes the new checkpoint. It fails if and only if the stack path is faulted |
| BackendSpec.RenameSnapshot | pkg/backend/filestate/backend.go:634-639 | Renaming keeps the snapshot's presence and its resource count; every resource's URN names the new stack, with project, type and name kept |
| BackendSpec.RemoveStackLocksAroundEverything | pkg/backend/filestate/backend.go:569-586 | If the lock cannot be taken nothing changes. Otherwise the first step is the lock and the last is the unlock |
| BackendSpec.RemoveStackKeepsStackWithResources | pkg/backend/filestate/backend.go:575-583 | Without `force`, a stack whose latest snapshot has a resource reports `true` with the refusal, and the bucket is unchanged |
| BackendSpec.RemoveStackFilesStep | pkg/backend/filestate/backend.go:585 | Whatever fails, the stack file is never lost: once it is gone, its `.bak` copy holds it |
| BackendSpec.RemoveStackMovesToBackup | pkg/backend/filestate/backend.go:563-586 | With `force` or no resources, a healthy bucket and a free lock, removal succeeds and reports no resources. The stack file survives only as its backup. The history and the lock marker are gone, and every other key is as it was |
| BackendSpec.RemoveLockedMovesToBackup | pkg/backend/filestate/backend.go:575-585 | Under the lock, the same removal leaves exactly the old objects with the stack file moved to its backup and the history deleted |
| BackendSpec.RemoveStackResourcesFlag | pkg/backend/filestate/backend.go:580-585 | `true` is returned only together with the "still contains resources" error and without `force` |
| Filestate.LocalBackend.RemoveStack | pkg/backend/filestate/backend.go:563-586 | The new objects, the trace and the result are exactly `RemoveStackSpec`'s |
| Filestate.LocalBackend.RemoveLocked | pkg/backend/filestate/backend.go:575-585 | The body under the lock: load, guard against resources, then remove the files; exactly `RemoveLockedStep` |
| Filestate.LocalBackend.RemoveStackFiles | pkg/backend/filestate/backend.go:585 | Back up the stack file (moving it, so it is never lost) and delete the history, tolerating a missing one; exactly `RemoveStackFilesStep` |
| Filestate.LocalBackend.Lock | pkg/backend/filestate/backend.go:613-616 | Exactly `LockStep` on the current objects |
| Filestate.LocalBackend.Unlock | pkg/backend/filestate/backend.go:617 | Exactly `UnlockStep` on the current objects |
| Filestate.LocalBackend.GetStack | pkg/backend/filestate/backend.go:620-623 | Returns `GetCheckpoint` of the current objects and records the load |
| Filestate.LocalBackend.BackupTarget | pkg/backend/filestate/backend.go:647-648 | The new objects are `Backup` of the old ones |
| Filestate.LocalBackend.SaveStack | pkg/backend/filestate/backend.go:642-644 | Exactly `SaveStackStep` |
| Filestate.LocalBackend.RenameHistory | pkg/backend/filestate/backend.go:651-653 | The history moves as `MoveHistory` says; on an error nothing changes |
| Filestate.LocalBackend.ListBucket | pkg/backend/filestate/backend.go:1097-1105 | Fails if and only if the listing fails, with its error; otherwise lists every entry exactly once |
| BackendSpec.RenameRefusesExistingDestination | pkg/backend/filestate/backend.go:625-632 | An existing destination gives "a stack named … already exists". The only steps are lock, load and unlock, and the bucket is unchanged |
| BackendSpec.RenameSuccessOrder | pkg/backend/filestate/backend.go:610-655 | A successful rename goes through lock, load, backup and save under the new name, backup of the old file, history move, then unlock, in that order |
| BackendSpec.RenameLockedOrder | pkg/backend/filestate/backend.go:619-654 | Under the lock, a successful rename performs exactly those phases in that order |
| BackendSpec.RenameFrame | pkg/backend/filestate/backend.go:610-655 | Whatever happens, a rename touches no key outside the two stack files, their backups, the two histories and the lock marker |
| BackendSpec.RenameLockedFrame | pkg/backend/filestate/backend.go:619-654 | The same frame for the body under the lock |
| BackendSpec.RenameFootprintInBookkeeping | pkg/backend/filestate/backend.go:610-655 | Everything a rename may touch lies under `.pulumi/` |
| BackendSpec.RenameMovesStack | pkg/backend/filestate/backend.go:610-655 | With a healthy bucket, a free lock and a free destination, the rename succeeds. The new file holds the renamed checkpoint. The old file survives only as its backup. The history moves to the new key |
| BackendSpec.RenameLockedMoves | pkg/backend/filestate/backend.go:619-654 | The same effect stated for the body under the lock |
| Filestate.LocalBackend.RenameStack | pkg/backend/filestate/backend.go:610-655 | The new objects, the trace and the error are exactly `RenameStackSpec`'s |
| Filestate.LocalBackend.RenameLocked | pkg/backend/filestate/backend.go:619-654 | The body under the lock is exactly `RenameLockedStep` |
| BackendSpec.CancelSpec | pkg/backend/filestate/backend.go:1096-1105 | A failed listing changes nothing. It is an error unless it is NotFound |
| BackendSpec.CancelEntriesFrame | pkg/backend/filestate/backend.go:1107-1120 | The deletion loop fails only on a file whose deletion hits a real fault, and touches no key except the listed files |
| BackendSpec.CancelStaysInLockDir | pkg/backend/filestate/backend.go:1096-1123 | Cancelling touches nothing outside the stack's lock directory |
| BackendSpec.CancelStopsAtMissingMarker | pkg/backend/filestate/backend.go:1112-1116 | A marker that is already gone ends the loop without error, and the later markers stay |
| BackendSpec.CancelDeletesListedFiles | pkg/backend/filestate/backend.go:1107-1122 | With every marker present and no faults, the loop deletes exactly the listed files, skips directories, and records one deletion per file in listing order |
| BackendSpec.CancelClearsLockDir | pkg/backend/filestate/backend.go:1096-1123 | On a healthy bucket, cancelling succeeds and leaves no file directly in the lock directory |
| Filestate.LocalBackend.CancelCurrentUpdate | pkg/backend/filestate/backend.go:1096-1123 | The new objects, the trace and the error are exactly `CancelSpec`'s for the listing order it followed, and that order lists the directory once |
| BackendSpec.ProjectNames | pkg/backend/filestate/backend.go:1062-1075 | The result has at most one name per listed entry |
| BackendSpec.ProjectNamesExactly | pkg/backend/filestate/backend.go:1062-1075 | A name is reported if and only if a listed directory carries it and it is a valid name |
| Filestate.LocalBackend.GetLocalProjects | pkg/backend/filestate/backend.go:1055-1078 | A failed listing is the "error listing projects" error. Otherwise the result is `ProjectNames` of the listing order, which lists the directory once |
| BackendSpec.UpgradedReference | pkg/backend/filestate/backend.go:294 | The target is a project-store reference with the legacy name and the inferred project |
| BackendSpec.LegacyRefs | pkg/backend/filestate/backend.go:271 | Legacy references have no project. Each one comes from a listed file named after it plus `.json` |
| BackendSpec.LegacyRefsCoverListedFiles | pkg/backend/filestate/backend.go:271 | Conversely, every listed file `n.json` yields the legacy reference `n` |
| BackendSpec.LegacyRefsCoverBucket | pkg/backend/filestate/backend.go:271-278 | Every stack file directly in the stacks directory yields its legacy reference, whatever the listing order, so `Upgrade` migrates every legacy stack |
| BackendSpec.LegacyRefsPointAtListedFiles | pkg/backend/filestate/backend.go:271-278 | Each legacy reference found by listing points at a stack file that is in the bucket |
| BackendSpec.MigrateNeedsAResource | pkg/backend/filestate/backend.go:283-292 | A legacy stack whose latest snapshot is missing or has no resources stops with "no project found", after only the load |
| BackendSpec.MigrateTargetsFirstResourceProject | pkg/backend/filestate/backend.go:283-297 | Otherwise the iteration has the effect of renaming the stack into the project of its first resource's URN, and succeeds if and only if that rename does |
| BackendSpec.MigrateAllExtends | pkg/backend/filestate/backend.go:277-298 | One more reference extends the loop by one iteration, unless it had already failed |
| BackendSpec.MigrateAllStopsAtFirstError | pkg/backend/filestate/backend.go:277-298 | Once an iteration fails, the later references are not touched |
| BackendSpec.MigrateAllInBookkeeping | pkg/backend/filestate/backend.go:277-298 | Migration touches only keys under `.pulumi/` |
| BackendSpec.UpgradeSpec | pkg/backend/filestate/backend.go:276-307 | On success the manifest holds version 1 and writing it is the last step |
| BackendSpec.UpgradeFailureKeepsManifest | pkg/backend/filestate/backend.go:276-307 | A failed upgrade leaves the manifest as it was |
| BackendSpec.UpgradeSucceedsExactly | pkg/backend/filestate/backend.go:276-307 | An upgrade succeeds if and only if every stack migrates and the manifest write succeeds |
| Filestate.LocalBackend.Upgrade | pkg/backend/filestate/backend.go:267-307 | A failed listing is "read old references" with nothing changed. Otherwise objects, trace and error are `UpgradeSpec`'s for the listed legacy references. The store becomes the project store exactly when there is no error |
| Filestate.LocalBackend.MigrateStacks | pkg/backend/filestate/backend.go:277-298 | The loop is exactly `MigrateAll` over the references |
| Filestate.LocalBackend.MigrateStack | pkg/backend/filestate/backend.go:278-297 | One iteration is exactly `MigrateOne` |
| Filestate.LocalBackend.MigrateCheckpoint | pkg/backend/filestate/backend.go:283-297 | After the load, the iteration is exactly `MigrateLoaded` |
| Filestate.LocalBackend.MigrateInto | pkg/backend/filestate/backend.go:294-297 | The rename of `RenameStackSpec`, with its error wrapped in the "upgrade stack" context |
| BackendSpec.ApplyResult | pkg/backend/filestate/backend.go:866-885 | The update error wins. Otherwise, outside a dry run, the history error wraps as "saving update info", else the backup error as "saving backup". There is no error if and only if no step failed |
| BackendSpec.ApplyRanking | pkg/backend/filestate/backend.go:873-885 | An update error masks both other errors, and a history error masks the backup error |
| ServiceSecrets.Manager.TypeName | pkg/secrets/service/manager.go:35 | The type is always `"service"` |
| ServiceSecrets.EncryptValue | pkg/secrets/service/manager.go:47-53 | A client error is returned. Otherwise the result base64-decodes back to the client's ciphertext |
| ServiceSecrets.DecryptValue | pkg/secrets/service/manager.go:55-66 | Malformed base64 is an error. Otherwise the client gets the decoded bytes, and its answer or error is returned |
| ServiceSecrets.DecryptMalformedIgnoresClient | pkg/secrets/service/manager.go:56-59 | For malformed text any two clients give the same answer: the client is never asked |
| ServiceSecrets.DecryptEncrypt | pkg/secrets/service/manager.go:47-66 | Whatever the service round-trips, the crypter round-trips |
| ServiceSecrets.DecodeAll | pkg/secrets/service/manager.go:69-76 | Succeeds if and only if every element decodes, and then yields each decoding in order |
| ServiceSecrets.BulkDecrypt | pkg/secrets/service/manager.go:68-89 | Fails on the first malformed element before the client is called. Otherwise returns the client's map key for key |
| ServiceSecrets.FirstMalformedFails | pkg/secrets/service/manager.go:70-74 | When element `i` is the first malformed one, the call fails with its error |
| ServiceSecrets.BulkDecryptMalformedIgnoresClient | pkg/secrets/service/manager.go:70-74 | One malformed element makes the whole call fail the same way whatever the client |
| ServiceSecrets.BulkDecryptSendsDecoded | pkg/secrets/service/manager.go:69-89 | On success the client received exactly the decoded elements, in order, and its map is returned |
| ServiceSecrets.ChangeProjectStackSecretDetails | pkg/secrets/service/manager.go:204-219 | The three provider fields are empty afterwards and the rest of the settings are unchanged. The result is true if and only if some field was non-empty before |
| ServiceSecrets.ChangeTwiceReportsNoChange | pkg/secrets/service/manager.go:204-219 | A second call reports no change |
| ServiceSecrets.NewServiceSecretsManager | pkg/secrets/service/manager.go:123-161 | A load error is returned. The settings are cleared, and saved exactly when clearing changed something. A save error is returned. Otherwise the state is the client URL and the stack's owner, project and stack |
| ServiceSecrets.NewServiceSecretsManagerFromState | pkg/secrets/service/manager.go:165-193 | Unmarshalling and account errors are wrapped, and an empty token is "could not find access token". Otherwise the manager keeps the state, addresses the stored stack and connects with the token |
| ServiceSecrets.Manager.State | pkg/secrets/service/manager.go:109-111 | Returns the persisted state (URL, owner, project, stack) the manager holds; StateRoundTrip shows a manager rebuilt from it addresses the same stack |
| ServiceSecrets.StateRoundTrip | pkg/secrets/service/manager.go:109-111 | A manager rebuilt from its own `State()` has the same state and addresses the same stack at the same URL |
| Base64.Encode | pkg/secrets/service/manager.go:52 | The output has 4 characters per started 3-byte group, each from the alphabet or `=` |
| Base64.StripNewlines | pkg/secrets/service/manager.go:56 | The decoder sees no line breaks and no more characters than the input |
| Base64.DecodeEncode | pkg/secrets/service/manager.go:52-56 | Decoding the encoding gives back the bytes |
| Base64.DecodeRejectsForeign | pkg/secrets/service/manager.go:56 | A character outside the alphabet, `=`, `\r` and `\n` makes decoding fail |
| Base64.DecodeNeedsWholeQuanta | pkg/secrets/service/manager.go:56 | Without line breaks, a length that is not a multiple of 4 makes decoding fail |
| Crypto.ChooseManager | pkg/cmd/pulumi/crypto.go:66-76 | A provider other than `passphrase`, `default` or empty selects the cloud manager with that provider. Otherwise a salt selects the passphrase manager. Otherwise the default manager is used. Each branch is stated as an if-and-only-if |
| Crypto.CloudIgnoresSalt | pkg/cmd/pulumi/crypto.go:66-69 | Once a cloud provider is chosen, salt and key do not matter |
| Crypto.ClearedSettingsResolveToDefault | pkg/cmd/pulumi/crypto.go:66-76 | Settings cleared by the service manager resolve to the default manager |
| Crypto.GetStackSecretsManager | pkg/cmd/pulumi/crypto.go:47-82 | Project, stack-load, settings-path and manager-constructor errors are each returned unchanged. A result is always a caching manager around the cascade's choice for the stack and its settings file |
| Crypto.GetStackSecretsManagerFails | pkg/cmd/pulumi/crypto.go:47-80 | Resolution fails if and only if one of its four steps fails. A settings-path error and a manager-constructor error are returned unchanged |
| Crypto.GetStackEncrypter | pkg/cmd/pulumi/crypto.go:29-36 | A resolution error passes through unchanged. After a successful resolution the call succeeds if and only if the manager's `Encrypter()` does, returning its error otherwise and the encrypter of the resolved manager on success |
| Crypto.GetStackDecrypter | pkg/cmd/pulumi/crypto.go:38-45 | The same with the manager's `Decrypter()`: success if and only if it succeeds, its error returned otherwise, and the decrypter of the resolved manager on success |
| Crypto.Kind | pkg/cmd/pulumi/crypto.go:85 | The kind is the longest colon-free prefix of the argument |
| Crypto.KindOfQualified | pkg/cmd/pulumi/crypto.go:85 | In `kind:rest` the kind is `kind`, whatever `rest` holds |
| Crypto.KindOfUnqualified | pkg/cmd/pulumi/crypto.go:85 | Text without a colon is its own kind |
| Crypto.ValidateSecretsProvider | pkg/cmd/pulumi/crypto.go:84-95 | Accepted if and only if the kind is one of the six supported kinds. Otherwise the "unknown secrets provider type" error names the kind and lists them |
| Crypto.ValidateQualifiedProvider | pkg/cmd/pulumi/crypto.go:84-95 | A provider URL is judged by its scheme alone |
| Crypto.ValidateKmsExample | pkg/cmd/pulumi/crypto.go:85-91 | `awskms://alias/...` is accepted |
| Crypto.ValidateServiceExample | pkg/cmd/pulumi/crypto.go:86-95 | `service` is rejected with the message naming `service` |
| Output.NewOutputData | sdk/python/lib/pulumi/output.py:97-105 | Resources and value are stored; an omitted secret flag is stored as false |
| Output.IsKnown | sdk/python/lib/pulumi/output.py:184-186 | True exactly when the value is not the `UNKNOWN` sentinel; `Future` returns the value exactly then |
| Output.Future | sdk/python/lib/pulumi/output.py:174-182 | A known value is returned. An unknown one gives `UNKNOWN` with `with_unknowns`, else `None` |
| Output.Apply | sdk/python/lib/pulumi/output.py:217-249 | Without `run_with_unknowns`, an unknown value yields unknown with the same resources and flag. An output callback result unions resources, ors secrecy and takes the inner value. Any other result keeps resources and flag |
| Output.ApplyUnknownSkipsCallback | sdk/python/lib/pulumi/output.py:221-223 | On an unknown value, any two callbacks give the same result: the callback is not run |
| Output.ApplyKeepsDependencies | sdk/python/lib/pulumi/output.py:221-249 | `apply` never loses a resource or the secret flag |
| Output.ApplyChainsAssociate | sdk/python/lib/pulumi/output.py:217-240 | Two chained `apply`s with output-returning callbacks equal one `apply` of the composed callback |
| Output.FromInputShallow | sdk/python/lib/pulumi/output.py:357-382 | An output is returned as is. Anything else is known, not secret and has no dependencies |
| Output.FromInput | sdk/python/lib/pulumi/output.py:289-301 | On a leaf value (no list, dict or output inside): an output re-applied with `from_input` comes back unchanged, and anything else is known, not secret and has no dependencies |
| Output.FromInputAsWritten | sdk/python/lib/pulumi/output.py:343-349 | As written, an awaitable never yields data within any number of steps; every other input converts as `from_input` |
| Output.AwaitableNeverResolves | sdk/python/lib/pulumi/output.py:343-349 | For every number of steps the awaitable branch as written has produced no data, while the intended conversion treats an awaitable like the value it resolves to |
| Output.FromInputIsShallow | sdk/python/lib/pulumi/output.py:289-354 | For a value that is not a list or a dict, `from_input` agrees with `_from_input_shallow` |
| Output.Secret | sdk/python/lib/pulumi/output.py:412-416 | For a leaf input, the result is secret, with the converted input's resources and value |
| Output.Unsecret | sdk/python/lib/pulumi/output.py:394-398 | The result is not secret, with the same resources and value |
| Output.SecretUnsecretIdempotent | sdk/python/lib/pulumi/output.py:394-416 | Each marking applied twice equals applying it once, and each undoes the other's flag |
| Output.UnionAll | sdk/python/lib/pulumi/output.py:473-475 | A resource is in the union if and only if some input has it |
| Output.AnySecret | sdk/python/lib/pulumi/output.py:476 | True if and only if some input is secret |
| Output.AllKnown | sdk/python/lib/pulumi/output.py:477 | True if and only if every input is known |
| Output.KnownValues | sdk/python/lib/pulumi/output.py:478 | The values, one per input, in order |
| Output.GatherList | sdk/python/lib/pulumi/output.py:468-480 | Resources are unioned and secrecy or-ed. The value is known if and only if every input is, and is then the list of values |
| Output.GatherDict | sdk/python/lib/pulumi/output.py:450-466 | The same for a dict: unioned resources, or-ed secrecy, and a known dict of values exactly when all are known |
| Output.GatherDictAgreesWithList | sdk/python/lib/pulumi/output.py:450-480 | The dict and list forms agree on dependencies, secrecy and knownness |
| Output.All | sdk/python/lib/pulumi/output.py:482-493 | For leaf inputs: mixing positional and keyword inputs is the `ValueError`. No inputs give a known empty list. Otherwise the result is `gather_list` of the converted positional inputs, or `gather_dict` of the converted keyword inputs: unioned dependencies, or-ed secrecy, and known exactly when every input is |
| Output.AllOfPrompts | sdk/python/lib/pulumi/output.py:440-443 | `Output.all(foo, bar)` of prompt values is the known, non-secret list `[foo, bar]` with no dependencies |
| Output.MapOutput | sdk/python/lib/pulumi/output.py:689-698 | Resources and flag are kept; a known value is transformed and unknown stays unknown |
| Output.Map2Output | sdk/python/lib/pulumi/output.py:701-721 | Resources are unioned and secrecy or-ed. The result is unknown if and only if an input is, else the transform of both values |
| Output.Map3Output | sdk/python/lib/pulumi/output.py:724-749 | The same for three outputs |
| Output.MapOutputIsApply | sdk/python/lib/pulumi/output.py:689-698 | `_map_output` is `apply` with a plain callback |
| Output.Map2AgreesWithAll | sdk/python/lib/pulumi/output.py:701-721 | `_map2_output` matches `Output.all` of the same two outputs in dependencies, secrecy and knownness |
| Output.FromInputDeepOfOutputIsApply | sdk/python/lib/pulumi/output.py:300-301 | On an output, `from_input` is `val.apply(Output.from_input)` |
| Output.FromInputDeepOfPlain | sdk/python/lib/pulumi/output.py:320-354 | An input with no output inside has no unknown inside, and becomes a known, non-secret output with no dependencies and its plain value |
| Output.FromInputDeepResources | sdk/python/lib/pulumi/output.py:289-354 | Deep unwrapping depends on exactly the resources of the outputs reachable in the input (`ResourcesInside`): those of each output, plus those inside its value when known |
| Output.FromInputDeepValue | sdk/python/lib/pulumi/output.py:289-354 | When no reachable output is unknown, deep unwrapping is known and its value is the input with every output replaced by its value (`Unwrap`) |
| Output.FromInputDeep | sdk/python/lib/pulumi/output.py:289-354 | On an output, the outer output's dependencies and secret flag are kept, and an unknown outer value stays unknown |
| Output.FromInputDeepSecretAndKnown | sdk/python/lib/pulumi/output.py:289-354 | Deep unwrapping is secret if and only if a reachable output is secret, and unknown if and only if a reachable output is unknown |
| Output.SecretDeep | sdk/python/lib/pulumi/output.py:400-416 | `Output.secret` on any input: secret, with the resources and value of the deeply unwrapped input |
| Output.SecretDeepUnwraps | sdk/python/lib/pulumi/output.py:400-416 | `secret` depends on exactly the resources of the outputs inside its input, is unknown exactly when one of them is, and is otherwise the unwrapped value. An input with no output inside becomes a known secret of its plain value |
| Output.SecretDeepOfLeaf | sdk/python/lib/pulumi/output.py:400-416 | On a leaf, the deep `secret` equals the leaf-level `Output.Secret` |
| Output.AllDeep | sdk/python/lib/pulumi/output.py:482-493 | `Output.all` on any inputs, each deeply unwrapped. Mixing the two kinds is the `ValueError`. A known result is a list with one element per argument, or a dict with the keyword names as keys |
| Output.AllDeepListSecretAndKnown | sdk/python/lib/pulumi/output.py:468-493 | `all(*args)` depends on exactly the resources of the outputs inside the arguments, is secret exactly when one of them is, and is unknown exactly when one of them is |
| Output.AllDeepDictSecretAndKnown | sdk/python/lib/pulumi/output.py:450-493 | The same for `all(**kwargs)` |
| Output.AllDeepListValue | sdk/python/lib/pulumi/output.py:468-493 | When no output inside the arguments is unknown, `all(*args)` is the list of their unwrapped values |
| Output.AllDeepDictValue | sdk/python/lib/pulumi/output.py:450-493 | When no output inside the keyword arguments is unknown, `all(**kwargs)` is the dict of their unwrapped values under the same keys |
| Output.AllDeepOfPlain | sdk/python/lib/pulumi/output.py:440-493 | Arguments with no output inside are gathered into the known, non-secret list of their plain values, with no dependencies |
| Paths.BeforeFirst | pkg/cmd/pulumi/crypto.go:85 | The result is the longest prefix without the separator, followed in the input by the separator or the end |

## Left out

- Asynchrony. The asyncio futures of `output.py` and the channels and goroutines of the backend's `apply` are not modelled. Every `_data` is an already-resolved `OutputData`.
- Input classes. `from_input`'s reflection on input-type classes (`__dict__`), and `json_dumps`, `json_loads`, `format`, `concat`, `__getattr__`, `__getitem__` and `__str__` in `output.py`, are not modelled.
- Output.FromInput: an awaitable input is converted as the value it resolves to, as `_from_input_shallow` does with `from_input(await val)` (output.py:374). The awaitable branch of `from_input` as written (output.py:346) passes the same un-awaited value back to `from_input`; that behaviour is Output.FromInputAsWritten, listed under "## Findings".
- Output.Secret: follows Output.FromInput on an awaitable input, not the awaitable branch as written.
- Output.All: follows Output.FromInput on an awaitable input, not the awaitable branch as written.
- Output.Secret, Output.All: these generic versions take every input value as a leaf, with no list, dict or output inside. The deep unwrapping that `secret` and `all` apply through `from_input` is modelled by Output.SecretDeep and Output.AllDeep over nested values.
- Output.FromInputDeep: a non-empty dict goes straight to `gather_dict`. The extra step where `from_input` first passes the keys through `Output.all(*keys)` and `apply` is not modelled, because the keys are plain strings here.
- Serialisation. Checkpoints, lock markers, histories and the manifest are stored as typed values, not as JSON (optionally gzipped) bytes.
- History layout. A stack's history directory is one object under its key; it is moved or deleted as a whole.
- Bucket access. Bucket opening (gocloud URL muxes, GCS credentials), prefixed buckets, `IsFileStateBackendURL`, `url.Parse`, the lock ID's UUID and the gzip environment variable are left out. `New` starts from an open bucket and a given manifest version.
- Helpers outside `backend.go`. The bodies of `Lock`, `Unlock`, `getStack`/`getCheckpoint`, `saveStack`, `backupTarget`, `removeStack`, `renameHistory`, `listBucket`, `stackPath` and the reference stores live in files that are not part of this model. They are given the natural contracts over the bucket map. For example, `Lock` refuses when another instance's marker is present, and `getStack` returns a checkpoint.
- Bucket.Backup: `backupTarget` is not part of this model. The backup is modelled as a move: the original is deleted only once its copy has been written, because removal must back up the checkpoint, not hard-delete it.
- Faults. Driver failures and objects deleted by other processes are a fixed map from keys to errors, chosen by the caller.
- Listing order. The order of a listing is not specified: methods return it as a ghost value and the specification functions take it as a parameter.
- BackendSpec.RenameSnapshot: models `edit.RenameStack` (not part of this model) as renaming each resource URN's stack. Its other edits, such as provider references, and its own error are not modelled.
- Filestate.LocalBackend.RenameStack: the public `RenameStack` parses the new name first (`parseStackReference`, not part of this model). The method models the private `renameStack`, which takes both references.
- Filestate.LocalBackend.GetStack: `getStack`'s error wrapping is not visible. A read failure is reported as the bucket error and a non-checkpoint object as its own error.
- Filestate.LocalBackend.New: the warnings are returned as strings rather than sent to the diagnostics sink.
- Manifest location. The manifest key is `Pulumi.yaml` as `Upgrade` writes it (backend.go:302). Where `ensurePulumiMeta` reads it from is in a file that is not part of this model, so `New` takes the version as a parameter.
- Engine. The engine calls, snapshot manager, permalink printing, policy packs, logs, tags, `ListStacks`, `GetHistory`, import and export are not part of the modelled core.
- ServiceSecrets.EncryptValue: on a client error the Go function returns `""` together with the error. The model returns only the error.
- ServiceSecrets.NewServiceSecretsManager: `DetectProjectStackPath`, `LoadProjectStack` and `SaveProjectStack` are collaborators. Their outcomes arrive as parameters (`loaded`, `saveError`).
- Service client. The HTTP client, JSON unmarshalling and account lookup are opaque parameters, and so are the cloud, passphrase and default manager constructors and the caching manager's internals.
- Home directory. `user.Current`, `filepath.Abs`, `filepath.Join` and the path separator are parameters of `massageBlobPath` (the `Host` record).
- Integers. Versions are unbounded integers, and `%d` formatting is written out for them.

## Findings

| source | as written | input that shows it | evidently intended | confidence | as-written member | corrected member |
|---|---|---|---|---|---|---|
| sdk/python/lib/pulumi/output.py:343-349 | the coroutine for an awaitable calls `Output.from_input(val)` on the same, un-awaited value | any awaitable passed to `from_input` (directly, or inside a list or dict): each step schedules another `from_input` of it, so its data never resolves | `Output.from_input(await val)`, as in `_from_input_shallow` (output.py:374) | not executed | Output.AwaitableNeverResolves | Output.FromInput |
| pkg/backend/filestate/backend.go:326-336 | every path starting with `~` other than `~` itself is joined to the current user's home after cutting two characters (`path[2:]`) | `file://~alice/x` becomes the current user's home joined with `lice/x` | only `~`, `~/...` and `~` followed by the host's separator name the current user's home; `~alice/...` is not cut | not executed | BlobPath.AsWrittenDropsCharacter | BlobPath.MassageBlobPathKeepsNamedUser |
