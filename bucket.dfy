/** The storage the self-managed backend works on: a bucket of objects under string
    keys, and the layout of its `.pulumi` bookkeeping directory. Objects are kept as
    values (a checkpoint, a lock marker, a stack's update history, the layout manifest)
    rather than as serialised bytes. A fixed map of faults stands for driver errors
    and for objects another process removes: an operation on a faulted key fails with
    that key's error. Each primitive is a function from the objects before to the
    objects after (or an error). */
module Bucket {
  import opened Wrappers
  import opened Paths
  import opened References

  type byte = b: int | 0 <= b < 256

  datatype Urn = Urn(stack: string, project: string, typ: string, name: string)
  datatype ResourceState = ResourceState(urn: Urn)
  datatype Snapshot = Snapshot(resources: seq<ResourceState>)
  /** A stack's checkpoint file: its fully qualified name and its latest snapshot. */
  datatype Checkpoint = Checkpoint(stack: string, latest: Option<Snapshot>)

  datatype Object =
    | CheckpointFile(checkpoint: Checkpoint)
    | LockFile(owner: string)
    | HistoryFolder(updates: seq<Checkpoint>)
    | Manifest(version: int)
    | Blob(data: seq<byte>)

  datatype BucketError = NotFound | Failed(message: string)

  type Objects = map<string, Object>
  type Faults = map<string, BucketError>

  /** One line of a delimited listing: a file directly in the directory, or a
      sub-directory (whose key ends with '/'). `name` is `objectName`: the last segment. */
  datatype Entry = Entry(name: string, key: string, isDir: bool)

  // ------------------------------------------------------------------ layout

  const BookkeepingPrefix: string := ".pulumi/"
  const StacksDir: string := BookkeepingPrefix + "stacks"
  const HistoryRoot: string := BookkeepingPrefix + "history"
  const LocksRoot: string := BookkeepingPrefix + "locks"
  /** Where `Upgrade` writes the layout manifest. */
  const ManifestKey: string := "Pulumi.yaml"
  const CheckpointExtension: string := ".json"

  predicate InBookkeeping(k: string) {
    HasPrefix(k, BookkeepingPrefix)
  }

  /** `stackPath`: one directory of stacks for the legacy layout, one per project for the
      project layout. */
  function StackPath(r: StackReference): string {
    match r.store
    case LegacyStore => StacksDir + "/" + r.name + CheckpointExtension
    case ProjectStore => StacksDir + "/" + r.project + "/" + r.name + CheckpointExtension
  }

  /** `HistoryDir`; the history is kept as one object under this key. */
  function HistoryDir(r: StackReference): string {
    match r.store
    case LegacyStore => HistoryRoot + "/" + r.name
    case ProjectStore => HistoryRoot + "/" + r.project + "/" + r.name
  }

  /** `stackLockDir`. */
  function LockDir(fqn: string): string {
    LocksRoot + "/" + fqn
  }

  /** `lockPath`: this backend instance's marker in the stack's lock directory. */
  function LockKey(fqn: string, lockID: string): string {
    LockDir(fqn) + "/" + lockID + CheckpointExtension
  }

  /** `backupTarget`'s copy: the file name with `.bak` appended. */
  function BackupPath(file: string): string {
    file + ".bak"
  }

  lemma HasPrefixOfConcat(a: string, b: string, p: string)
    requires HasPrefix(a, p)
    ensures HasPrefix(a + b, p)
  {
    assert (a + b)[..|p|] == a[..|p|];
  }

  /** Every key the layout produces is under `.pulumi/`. */
  lemma LayoutInBookkeeping(r: StackReference, fqn: string, lockID: string)
    ensures InBookkeeping(StackPath(r)) && InBookkeeping(BackupPath(StackPath(r)))
    ensures InBookkeeping(HistoryDir(r))
    ensures InBookkeeping(LockDir(fqn)) && InBookkeeping(LockKey(fqn, lockID))
  {
    StackPathInBookkeeping(r);
    HasPrefixOfConcat(StackPath(r), ".bak", BookkeepingPrefix);
    HistoryDirInBookkeeping(r);
    LockKeyInBookkeeping(fqn, lockID);
  }

  lemma StackPathInBookkeeping(r: StackReference)
    ensures InBookkeeping(StackPath(r))
  {
    HasPrefixOfConcat(BookkeepingPrefix, "stacks", BookkeepingPrefix);
    match r.store
    case LegacyStore =>
      HasPrefixOfConcat(StacksDir, "/" + r.name + CheckpointExtension, BookkeepingPrefix);
      assert StackPath(r) == StacksDir + ("/" + r.name + CheckpointExtension);
    case ProjectStore =>
      HasPrefixOfConcat(StacksDir, "/" + r.project + "/" + r.name + CheckpointExtension, BookkeepingPrefix);
      assert StackPath(r) == StacksDir + ("/" + r.project + "/" + r.name + CheckpointExtension);
  }

  lemma HistoryDirInBookkeeping(r: StackReference)
    ensures InBookkeeping(HistoryDir(r))
  {
    HasPrefixOfConcat(BookkeepingPrefix, "history", BookkeepingPrefix);
    match r.store
    case LegacyStore =>
      HasPrefixOfConcat(HistoryRoot, "/" + r.name, BookkeepingPrefix);
      assert HistoryDir(r) == HistoryRoot + ("/" + r.name);
    case ProjectStore =>
      HasPrefixOfConcat(HistoryRoot, "/" + r.project + "/" + r.name, BookkeepingPrefix);
      assert HistoryDir(r) == HistoryRoot + ("/" + r.project + "/" + r.name);
  }

  lemma LockKeyInBookkeeping(fqn: string, lockID: string)
    ensures InBookkeeping(LockDir(fqn)) && InBookkeeping(LockKey(fqn, lockID))
  {
    HasPrefixOfConcat(BookkeepingPrefix, "locks", BookkeepingPrefix);
    HasPrefixOfConcat(LocksRoot, "/" + fqn, BookkeepingPrefix);
    assert LockDir(fqn) == LocksRoot + ("/" + fqn);
    HasPrefixOfConcat(LockDir(fqn), "/" + lockID + CheckpointExtension, BookkeepingPrefix);
    assert LockKey(fqn, lockID) == LockDir(fqn) + ("/" + lockID + CheckpointExtension);
  }

  /** The manifest sits outside `.pulumi/`, so no stack, history or lock key is it. */
  lemma ManifestOutsideBookkeeping()
    ensures !InBookkeeping(ManifestKey)
  {
    assert ManifestKey[0] != BookkeepingPrefix[0];
  }

  // ------------------------------------------------------------------ primitives

  function Read(m: Objects, faults: Faults, k: string): (r: Result<Object, BucketError>)
    ensures r.Ok? <==> k !in faults && k in m
    ensures r.Ok? ==> r.value == m[k]
  {
    if k in faults then Err(faults[k]) else if k !in m then Err(NotFound) else Ok(m[k])
  }

  /** An object another process removed is simply not there: only a real fault is an
      error. */
  function Exists(m: Objects, faults: Faults, k: string): (r: Result<bool, BucketError>)
    ensures r.Ok? <==> k !in faults || faults[k] == NotFound
    ensures r.Ok? ==> (r.value <==> k in m && k !in faults)
  {
    if k in faults then (if faults[k] == NotFound then Ok(false) else Err(faults[k]))
    else Ok(k in m)
  }

  function Write(m: Objects, faults: Faults, k: string, v: Object): (r: Result<Objects, BucketError>)
    ensures r.Ok? <==> k !in faults
    ensures r.Ok? ==> r.value == m[k := v]
  {
    if k in faults then Err(faults[k]) else Ok(m[k := v])
  }

  /** Deleting a missing key reports `NotFound`. */
  function Delete(m: Objects, faults: Faults, k: string): (r: Result<Objects, BucketError>)
    ensures r.Ok? <==> k !in faults && k in m
    ensures r.Ok? ==> r.value == m - {k}
    ensures k !in faults && k !in m ==> r == Err(NotFound)
  {
    if k in faults then Err(faults[k]) else if k !in m then Err(NotFound) else Ok(m - {k})
  }

  /** The entry a key contributes to the listing of `dir`. */
  function EntryOf(dir: string, k: string): Entry
    requires HasPrefix(k, dir + "/")
  {
    var rest := k[|dir| + 1..];
    var segment := BeforeFirst(rest, '/');
    if |segment| == |rest| then Entry(segment, k, false)
    else Entry(segment, dir + "/" + segment + "/", true)
  }

  /** `listBucket(dir)`: the files directly in `dir` and its sub-directories. */
  function Listing(m: Objects, dir: string): set<Entry>
  {
    set k | k in m && HasPrefix(k, dir + "/") :: EntryOf(dir, k)
  }

  function List(m: Objects, faults: Faults, dir: string): Result<set<Entry>, BucketError>
  {
    if dir in faults then Err(faults[dir]) else Ok(Listing(m, dir))
  }

  /** A file entry of a listing is a key of the bucket, inside the directory. */
  lemma ListedFileIsKey(m: Objects, dir: string, e: Entry)
    requires e in Listing(m, dir) && !e.isDir
    ensures e.key in m && HasPrefix(e.key, dir + "/")
  {
  }

  /** A file entry's key is the directory joined with its name. */
  lemma ListedFileKeyShape(m: Objects, dir: string, e: Entry)
    requires e in Listing(m, dir) && !e.isDir
    ensures e.key == dir + "/" + e.name
  {
    var rest := e.key[|dir| + 1..];
    assert e == EntryOf(dir, e.key);
    assert e.key == e.key[..|dir + "/"|] + rest;
  }

  /** A file entry is determined by its key. */
  lemma ListedFileIsOwnEntry(m: Objects, dir: string, e: Entry)
    requires e in Listing(m, dir) && !e.isDir
    ensures HasPrefix(e.key, dir + "/") && e == EntryOf(dir, e.key)
  {
  }

  /** ...and every key directly inside the directory is listed as a file. */
  lemma KeyIsListedFile(m: Objects, dir: string, name: string)
    requires '/' !in name
    requires dir + "/" + name in m
    ensures Entry(name, dir + "/" + name, false) in Listing(m, dir)
  {
    var k := dir + "/" + name;
    assert k[..|dir + "/"|] == dir + "/";
    assert k[|dir| + 1..] == name;
    BeforeFirstOfWhole(name, '/');
    assert EntryOf(dir, k) == Entry(name, k, false);
  }

  /** `backupTarget(file, keepOriginal)`: copy `file` to `file.bak`, then, unless told to
      keep it, delete the original. Both errors are ignored, but the original is removed
      only once its copy has been written, so a backup never loses the file. */
  function Backup(m: Objects, faults: Faults, file: string, keepOriginal: bool): (r: Objects)
    ensures forall k :: k != file && k != BackupPath(file) ==> (k in r <==> k in m) && (k in r ==> r[k] == m[k])
    ensures keepOriginal ==> (file in r <==> file in m) && (file in r ==> r[file] == m[file])
    ensures file in m && file !in r ==> BackupPath(file) in r && r[BackupPath(file)] == m[file]
  {
    assert BackupPath(file) != file by {
      assert |BackupPath(file)| > |file|;
    }
    match Read(m, faults, file)
    case Err(_) => m
    case Ok(obj) =>
      match Write(m, faults, BackupPath(file), obj)
      case Err(_) => m
      case Ok(m1) =>
        if keepOriginal then m1
        else match Delete(m1, faults, file)
          case Err(_) => m1
          case Ok(m2) => m2
  }

  /** With no faults, a backup moves (or copies) the file to its `.bak` name. */
  lemma BackupMoves(m: Objects, faults: Faults, file: string, keepOriginal: bool)
    requires file in m && file !in faults && BackupPath(file) !in faults
    ensures BackupPath(file) in Backup(m, faults, file, keepOriginal)
    ensures Backup(m, faults, file, keepOriginal)[BackupPath(file)] == m[file]
    ensures keepOriginal ==> Backup(m, faults, file, keepOriginal) == m[BackupPath(file) := m[file]]
    ensures !keepOriginal ==> Backup(m, faults, file, keepOriginal) == m[BackupPath(file) := m[file]] - {file}
  {
    assert BackupPath(file) != file by {
      assert |BackupPath(file)| > |file|;
    }
  }

  /** `renameHistory`: move the history object to its new key; a stack without history
      has nothing to move. */
  function MoveHistory(m: Objects, faults: Faults, from: string, to: string): (r: Result<Objects, BucketError>)
    ensures from !in m && from !in faults ==> r == Ok(m)
    ensures from in m && from != to && from !in faults && to !in faults ==> r == Ok(m[to := m[from]] - {from})
    ensures r.Err? ==> (from in faults && faults[from] != NotFound) || to in faults
  {
    match Read(m, faults, from)
    case Err(NotFound) => Ok(m)
    case Err(e) => Err(e)
    case Ok(obj) =>
      match Write(m, faults, to, obj)
      case Err(e) => Err(e)
      case Ok(m1) => Delete(m1, faults, from)
  }

  /** Moving a history touches only its two directories. */
  lemma MoveHistoryKeeps(m: Objects, faults: Faults, from: string, to: string, k: string)
    requires k != from && k != to && MoveHistory(m, faults, from, to).Ok?
    ensures var r := MoveHistory(m, faults, from, to).value; (k in r <==> k in m) && (k in r ==> r[k] == m[k])
  {
  }

  /** Keys of different kinds never coincide: stack files, their backups, history
      folders and lock markers are told apart by their directory or their extension. */
  lemma LayoutKeysDistinct(r1: StackReference, r2: StackReference, fqn: string, lockID: string)
    ensures StackPath(r1) != HistoryDir(r2) && StackPath(r1) != LockKey(fqn, lockID)
    ensures BackupPath(StackPath(r1)) != HistoryDir(r2) && BackupPath(StackPath(r1)) != LockKey(fqn, lockID)
    ensures BackupPath(StackPath(r1)) != StackPath(r2)
    ensures HistoryDir(r1) != LockKey(fqn, lockID)
  {
    assert StackPath(r1)[8] == 's';
    assert BackupPath(StackPath(r1))[8] == 's';
    assert HistoryDir(r2)[8] == 'h';
    assert HistoryDir(r1)[8] == 'h';
    assert LockKey(fqn, lockID)[8] == 'l';
    var b := BackupPath(StackPath(r1));
    var p := StackPath(r2);
    assert b[|b| - 1] == 'k';
    assert p[|p| - 1] == 'n';
  }
}
