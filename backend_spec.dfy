/** What the self-managed backend's stack operations do to the bucket, as functions
    from the objects before to the objects after, the ordered events (locking, loading,
    backing up, saving, moving history) and the error returned. The methods of
    `Filestate.LocalBackend` are proved to behave exactly like these functions; the
    lemmas here state what the functions promise. */
module BackendSpec {
  import opened Wrappers
  import opened Paths
  import opened References
  import opened Bucket

  datatype Error =
    | BucketFailed(failure: BucketError)
    | StackLocked(fqn: string)
    | NotACheckpoint(key: string)
    | StackAlreadyExists(rendered: string)
    | StillHasResources
    | NoProjectFound(rendered: string)
    | Wrapped(context: string, cause: Error)
    | UpdateFailed(message: string)

  /** Observable steps, in the order they happen. */
  datatype Event =
    | Locked(fqn: string)
    | Unlocked(fqn: string)
    | Loaded(key: string)
    | BackedUp(key: string)
    | Saved(key: string)
    | HistoryMoved(from: string, to: string)
    | HistoryRemoved(dir: string)
    | MarkerDeleted(key: string)
    | ManifestWritten

  /** The outcome of a step: the objects after it, what happened, and the error. */
  datatype Step = Step(objects: Objects, events: seq<Event>, err: Option<Error>)

  const StillHasResourcesMessage: string := "refusing to remove stack because it still contains resources"

  /** Whether the bucket holds the same thing under `k` in `m1` and `m2`. */
  predicate Same(m1: Objects, m2: Objects, k: string) {
    (k in m1 <==> k in m2) && (k in m1 ==> m1[k] == m2[k])
  }

  // ------------------------------------------------------------------ locking

  /** Another backend instance's marker in the lock directory. */
  predicate HeldByOther(entries: set<Entry>, fqn: string, lockID: string) {
    exists e :: e in entries && !e.isDir && e.key != LockKey(fqn, lockID)
  }

  /** `Lock`: refuse when another marker is present, else write this instance's marker. */
  function LockStep(m: Objects, faults: Faults, fqn: string, lockID: string): (s: Step)
    ensures s.err.None? <==> List(m, faults, LockDir(fqn)).Ok? && !HeldByOther(List(m, faults, LockDir(fqn)).value, fqn, lockID)
                             && LockKey(fqn, lockID) !in faults
    ensures s.err.None? ==> s.objects == m[LockKey(fqn, lockID) := LockFile(lockID)] && s.events == [Locked(fqn)]
    ensures s.err.Some? ==> s.objects == m && s.events == []
  {
    match List(m, faults, LockDir(fqn))
    case Err(e) => Step(m, [], Some(BucketFailed(e)))
    case Ok(entries) =>
      if HeldByOther(entries, fqn, lockID) then Step(m, [], Some(StackLocked(fqn)))
      else
        match Write(m, faults, LockKey(fqn, lockID), LockFile(lockID))
        case Err(e) => Step(m, [], Some(BucketFailed(e)))
        case Ok(m1) => Step(m1, [Locked(fqn)], None)
  }

  /** `Unlock`: delete this instance's marker; its error is ignored. */
  function UnlockStep(m: Objects, faults: Faults, fqn: string, lockID: string): (s: Step)
    ensures s.err.None? && s.events == [Unlocked(fqn)]
    ensures LockKey(fqn, lockID) !in faults ==> s.objects == m - {LockKey(fqn, lockID)}
    ensures LockKey(fqn, lockID) in faults ==> s.objects == m
  {
    match Delete(m, faults, LockKey(fqn, lockID))
    case Err(_) => Step(m, [Unlocked(fqn)], None)
    case Ok(m1) => Step(m1, [Unlocked(fqn)], None)
  }

  // ------------------------------------------------------------------ checkpoints

  /** `getCheckpoint`. */
  function GetCheckpoint(m: Objects, faults: Faults, r: StackReference): (c: Result<Checkpoint, Error>)
    ensures c.Ok? <==> Read(m, faults, StackPath(r)).Ok? && m[StackPath(r)].CheckpointFile?
    ensures c.Ok? ==> c.value == m[StackPath(r)].checkpoint
  {
    match Read(m, faults, StackPath(r))
    case Err(e) => Err(BucketFailed(e))
    case Ok(CheckpointFile(chk)) => Ok(chk)
    case Ok(_) => Err(NotACheckpoint(StackPath(r)))
  }

  /** `saveStack`: back up the current file (keeping it), then write the new checkpoint. */
  function SaveStackStep(m: Objects, faults: Faults, r: StackReference, snap: Option<Snapshot>): (s: Step)
    ensures s.err.None? <==> StackPath(r) !in faults
    ensures s.err.None? ==> s.objects == Backup(m, faults, StackPath(r), true)[StackPath(r) := CheckpointFile(Checkpoint(FullyQualifiedName(r), snap))]
    ensures s.err.None? ==> s.events == [BackedUp(StackPath(r)), Saved(StackPath(r))]
    ensures s.err.Some? ==> s.events == [BackedUp(StackPath(r))]
  {
    var path := StackPath(r);
    var m1 := Backup(m, faults, path, true);
    match Write(m1, faults, path, CheckpointFile(Checkpoint(FullyQualifiedName(r), snap)))
    case Err(e) => Step(m1, [BackedUp(path)], Some(Wrapped("An IO error occurred while writing the new snapshot file", BucketFailed(e))))
    case Ok(m2) => Step(m2, [BackedUp(path), Saved(path)], None)
  }

  /** `edit.RenameStack(snap, newName, "")`: every resource now names the new stack; the
      project part is left alone. */
  function RenameSnapshot(snap: Option<Snapshot>, newName: string): (r: Option<Snapshot>)
    ensures r.Some? <==> snap.Some?
    ensures r.Some? ==> |r.value.resources| == |snap.value.resources|
    ensures r.Some? ==> forall i :: 0 <= i < |r.value.resources| ==>
      var u := r.value.resources[i].urn;
      var v := snap.value.resources[i].urn;
      u == Urn(newName, v.project, v.typ, v.name)
  {
    match snap
    case None => None
    case Some(s) =>
      Some(Snapshot(seq(|s.resources|, i requires 0 <= i < |s.resources| =>
        var u := s.resources[i].urn;
        ResourceState(Urn(newName, u.project, u.typ, u.name)))))
  }

  // ------------------------------------------------------------------ RemoveStack

  /** `removeStack`: move the stack file to its backup, then delete the history. Whatever
      fails, the stack file is never lost: once it is gone, its backup holds it. */
  function RemoveStackFilesStep(m: Objects, faults: Faults, r: StackReference): (s: Step)
    ensures StackPath(r) in m && StackPath(r) !in s.objects ==>
      BackupPath(StackPath(r)) in s.objects && s.objects[BackupPath(StackPath(r))] == m[StackPath(r)]
  {
    LayoutKeysDistinct(r, r, "", "");
    var m1 := Backup(m, faults, StackPath(r), false);
    match Delete(m1, faults, HistoryDir(r))
    case Err(NotFound) => Step(m1, [BackedUp(StackPath(r)), HistoryRemoved(HistoryDir(r))], None)
    case Err(e) => Step(m1, [BackedUp(StackPath(r))], Some(BucketFailed(e)))
    case Ok(m2) => Step(m2, [BackedUp(StackPath(r)), HistoryRemoved(HistoryDir(r))], None)
  }

  /** The body of `RemoveStack` once the lock is held; also reports whether the stack
      was kept because it still has resources. */
  function RemoveLockedStep(m: Objects, faults: Faults, r: StackReference, force: bool): (Step, bool)
  {
    match GetCheckpoint(m, faults, r)
    case Err(e) => (Step(m, [Loaded(StackPath(r))], Some(e)), false)
    case Ok(chk) =>
      if !force && chk.latest.Some? && |chk.latest.value.resources| > 0 then
        (Step(m, [Loaded(StackPath(r))], Some(StillHasResources)), true)
      else
        var rm := RemoveStackFilesStep(m, faults, r);
        (Step(rm.objects, [Loaded(StackPath(r))] + rm.events, rm.err), false)
  }

  /** `RemoveStack`: lock, load, refuse a stack that still has resources unless forced,
      remove, unlock. */
  function RemoveStackSpec(m: Objects, faults: Faults, lockID: string, r: StackReference, force: bool): (Step, bool)
  {
    var fqn := FullyQualifiedName(r);
    var lock := LockStep(m, faults, fqn, lockID);
    if lock.err.Some? then (lock, false)
    else
      var (body, hasResources) := RemoveLockedStep(lock.objects, faults, r, force);
      var unlock := UnlockStep(body.objects, faults, fqn, lockID);
      (Step(unlock.objects, lock.events + body.events + unlock.events, body.err), hasResources)
  }

  /** The lock is taken before anything is read and, once taken, released last; if it
      cannot be taken nothing happens at all. */
  lemma RemoveStackLocksAroundEverything(m: Objects, faults: Faults, lockID: string, r: StackReference, force: bool)
    ensures var (s, _) := RemoveStackSpec(m, faults, lockID, r, force);
      var fqn := FullyQualifiedName(r);
      if LockStep(m, faults, fqn, lockID).err.Some? then
        s.objects == m && s.events == [] && s.err == LockStep(m, faults, fqn, lockID).err
      else
        && |s.events| >= 3
        && s.events[0] == Locked(fqn) && s.events[1] == Loaded(StackPath(r))
        && s.events[|s.events| - 1] == Unlocked(fqn)
        && (LockKey(fqn, lockID) !in faults ==> LockKey(fqn, lockID) !in s.objects)
  {
  }

  /** Without `force`, a stack whose latest snapshot has a resource is kept: the call
      reports it, returns the refusal, and leaves the bucket as it found it. */
  lemma RemoveStackKeepsStackWithResources(m: Objects, faults: Faults, lockID: string, r: StackReference)
    requires LockStep(m, faults, FullyQualifiedName(r), lockID).err.None?
    requires LockKey(FullyQualifiedName(r), lockID) !in m
    requires StackPath(r) !in faults && StackPath(r) in m && m[StackPath(r)].CheckpointFile?
    requires var chk := m[StackPath(r)].checkpoint; chk.latest.Some? && |chk.latest.value.resources| > 0
    ensures RemoveStackSpec(m, faults, lockID, r, false).1
    ensures RemoveStackSpec(m, faults, lockID, r, false).0.err == Some(StillHasResources)
    ensures RemoveStackSpec(m, faults, lockID, r, false).0.objects == m
  {
    var k := LockKey(FullyQualifiedName(r), lockID);
    assert StackPath(r) != k by {
      assert StackPath(r) in m;
    }
    assert m[k := LockFile(lockID)] - {k} == m;
  }

  /** `RemoveStack` reports resources only alongside the refusal. */
  lemma RemoveStackResourcesFlag(m: Objects, faults: Faults, lockID: string, r: StackReference, force: bool)
    ensures RemoveStackSpec(m, faults, lockID, r, force).1 ==>
      !force && RemoveStackSpec(m, faults, lockID, r, force).0.err == Some(StillHasResources)
  {
  }

  /** With `force`, or when the latest snapshot has no resources, a healthy removal
      succeeds: the stack file survives only as its backup, the history and this
      instance's lock marker are gone, and every other key is as it was. */
  lemma RemoveStackMovesToBackup(m: Objects, lockID: string, r: StackReference, force: bool)
    requires !HeldByOther(Listing(m, LockDir(FullyQualifiedName(r))), FullyQualifiedName(r), lockID)
    requires LockKey(FullyQualifiedName(r), lockID) !in m
    requires StackPath(r) in m && m[StackPath(r)].CheckpointFile?
    requires var chk := m[StackPath(r)].checkpoint; force || chk.latest.None? || |chk.latest.value.resources| == 0
    ensures var (s, hasResources) := RemoveStackSpec(m, map[], lockID, r, force);
      && s.err.None? && !hasResources
      && StackPath(r) !in s.objects
      && BackupPath(StackPath(r)) in s.objects && s.objects[BackupPath(StackPath(r))] == m[StackPath(r)]
      && HistoryDir(r) !in s.objects
      && LockKey(FullyQualifiedName(r), lockID) !in s.objects
      && forall k :: k !in {StackPath(r), BackupPath(StackPath(r)), HistoryDir(r), LockKey(FullyQualifiedName(r), lockID)}
                     ==> Same(m, s.objects, k)
  {
    var fqn := FullyQualifiedName(r);
    var lk := LockKey(fqn, lockID);
    var path := StackPath(r);
    LayoutKeysDistinct(r, r, fqn, lockID);
    var lock := LockStep(m, map[], fqn, lockID);
    assert lock.err.None?;
    var m1 := m[lk := LockFile(lockID)];
    assert m1[path] == m[path];
    RemoveLockedMovesToBackup(m1, r, force);
    var body := RemoveLockedStep(m1, map[], r, force).0;
    assert body.objects == m1[BackupPath(path) := m[path]] - {path, HistoryDir(r)};
    var (s, _) := RemoveStackSpec(m, map[], lockID, r, force);
    assert s.objects == body.objects - {lk};
    forall k | k !in {path, BackupPath(path), HistoryDir(r), lk}
      ensures Same(m, s.objects, k)
    {
    }
  }

  lemma RemoveLockedMovesToBackup(m: Objects, r: StackReference, force: bool)
    requires StackPath(r) in m && m[StackPath(r)].CheckpointFile?
    requires var chk := m[StackPath(r)].checkpoint; force || chk.latest.None? || |chk.latest.value.resources| == 0
    requires StackPath(r) != HistoryDir(r) && BackupPath(StackPath(r)) != HistoryDir(r)
    ensures var (s, hasResources) := RemoveLockedStep(m, map[], r, force);
      && s.err.None? && !hasResources
      && s.objects == m[BackupPath(StackPath(r)) := m[StackPath(r)]] - {StackPath(r), HistoryDir(r)}
  {
    var path := StackPath(r);
    BackupMoves(m, map[], path, false);
    var m1 := m[BackupPath(path) := m[path]] - {path};
    if HistoryDir(r) !in m1 {
      assert m1 - {HistoryDir(r)} == m1;
    }
  }

  // ------------------------------------------------------------------ renameStack

  /** The body of `renameStack` once the lock on the old stack is held. */
  function RenameLockedStep(m: Objects, faults: Faults, currentProject: Option<string>,
                            oldRef: StackReference, newRef: StackReference): Step
  {
    var oldPath := StackPath(oldRef);
    match GetCheckpoint(m, faults, oldRef)
    case Err(e) => Step(m, [Loaded(oldPath)], Some(e))
    case Ok(chk) =>
      match Exists(m, faults, StackPath(newRef))
      case Err(e) => Step(m, [Loaded(oldPath)], Some(BucketFailed(e)))
      case Ok(true) => Step(m, [Loaded(oldPath)], Some(StackAlreadyExists(String(newRef, currentProject))))
      case Ok(false) =>
        var saved := SaveStackStep(m, faults, newRef, RenameSnapshot(chk.latest, newRef.name));
        if saved.err.Some? then Step(saved.objects, [Loaded(oldPath)] + saved.events, saved.err)
        else
          var m3 := Backup(saved.objects, faults, oldPath, false);
          var events := [Loaded(oldPath)] + saved.events + [BackedUp(oldPath)];
          match MoveHistory(m3, faults, HistoryDir(oldRef), HistoryDir(newRef))
          case Err(e) => Step(m3, events, Some(BucketFailed(e)))
          case Ok(m4) => Step(m4, events + [HistoryMoved(HistoryDir(oldRef), HistoryDir(newRef))], None)
  }

  /** `renameStack`: lock the old stack, load it, refuse an existing destination, save
      under the new reference, back up (and so remove) the old file, move the history,
      unlock. */
  function RenameStackSpec(m: Objects, faults: Faults, lockID: string, currentProject: Option<string>,
                           oldRef: StackReference, newRef: StackReference): Step
  {
    var fqn := FullyQualifiedName(oldRef);
    var lock := LockStep(m, faults, fqn, lockID);
    if lock.err.Some? then lock
    else
      var body := RenameLockedStep(lock.objects, faults, currentProject, oldRef, newRef);
      var unlock := UnlockStep(body.objects, faults, fqn, lockID);
      Step(unlock.objects, lock.events + body.events + unlock.events, body.err)
  }

  /** An existing destination is refused before anything is written: the only change is
      the lock, taken and released. */
  lemma RenameRefusesExistingDestination(m: Objects, faults: Faults, lockID: string, currentProject: Option<string>,
                                         oldRef: StackReference, newRef: StackReference)
    requires LockStep(m, faults, FullyQualifiedName(oldRef), lockID).err.None?
    requires LockKey(FullyQualifiedName(oldRef), lockID) !in m
    requires GetCheckpoint(m, faults, oldRef).Ok?
    requires StackPath(newRef) !in faults && StackPath(newRef) in m
    ensures var s := RenameStackSpec(m, faults, lockID, currentProject, oldRef, newRef);
      && s.err == Some(StackAlreadyExists(String(newRef, currentProject)))
      && s.objects == m
      && s.events == [Locked(FullyQualifiedName(oldRef)), Loaded(StackPath(oldRef)), Unlocked(FullyQualifiedName(oldRef))]
  {
    var k := LockKey(FullyQualifiedName(oldRef), lockID);
    var m1 := m[k := LockFile(lockID)];
    assert GetCheckpoint(m1, faults, oldRef) == GetCheckpoint(m, faults, oldRef) by {
      assert StackPath(oldRef) in m;
    }
    assert m1 - {k} == m;
  }

  /** The observable steps of a successful rename under the lock: load, save under the
      new name (after backing up whatever was there), back up the old file, move the
      history. */
  function RenamePhases(oldRef: StackReference, newRef: StackReference): seq<Event> {
    [Loaded(StackPath(oldRef))]
    + [BackedUp(StackPath(newRef)), Saved(StackPath(newRef))]
    + [BackedUp(StackPath(oldRef))]
    + [HistoryMoved(HistoryDir(oldRef), HistoryDir(newRef))]
  }

  /** A successful rename takes the lock, goes through its phases in order, and
      releases the lock last. */
  lemma RenameSuccessOrder(m: Objects, faults: Faults, lockID: string, currentProject: Option<string>,
                           oldRef: StackReference, newRef: StackReference)
    requires RenameStackSpec(m, faults, lockID, currentProject, oldRef, newRef).err.None?
    ensures RenameStackSpec(m, faults, lockID, currentProject, oldRef, newRef).events
         == [Locked(FullyQualifiedName(oldRef))] + RenamePhases(oldRef, newRef) + [Unlocked(FullyQualifiedName(oldRef))]
  {
    var fqn := FullyQualifiedName(oldRef);
    var lock := LockStep(m, faults, fqn, lockID);
    RenameLockedOrder(lock.objects, faults, currentProject, oldRef, newRef);
  }

  lemma RenameLockedOrder(m: Objects, faults: Faults, currentProject: Option<string>,
                          oldRef: StackReference, newRef: StackReference)
    requires RenameLockedStep(m, faults, currentProject, oldRef, newRef).err.None?
    ensures RenameLockedStep(m, faults, currentProject, oldRef, newRef).events == RenamePhases(oldRef, newRef)
  {
    var chk := GetCheckpoint(m, faults, oldRef).value;
    var saved := SaveStackStep(m, faults, newRef, RenameSnapshot(chk.latest, newRef.name));
    assert saved.err.None?;
  }

  /** The keys a rename may touch. */
  function RenameFootprint(lockID: string, oldRef: StackReference, newRef: StackReference): set<string> {
    {LockKey(FullyQualifiedName(oldRef), lockID),
     StackPath(oldRef), BackupPath(StackPath(oldRef)),
     StackPath(newRef), BackupPath(StackPath(newRef)),
     HistoryDir(oldRef), HistoryDir(newRef)}
  }

  /** Whatever happens, a rename touches nothing outside its footprint. */
  lemma RenameFrame(m: Objects, faults: Faults, lockID: string, currentProject: Option<string>,
                    oldRef: StackReference, newRef: StackReference, k: string)
    requires k !in RenameFootprint(lockID, oldRef, newRef)
    ensures Same(m, RenameStackSpec(m, faults, lockID, currentProject, oldRef, newRef).objects, k)
  {
    var fqn := FullyQualifiedName(oldRef);
    var lock := LockStep(m, faults, fqn, lockID);
    if lock.err.None? {
      RenameLockedFrame(lock.objects, faults, currentProject, oldRef, newRef, k);
    }
  }

  lemma RenameLockedFrame(m: Objects, faults: Faults, currentProject: Option<string>,
                          oldRef: StackReference, newRef: StackReference, k: string)
    requires k != StackPath(oldRef) && k != BackupPath(StackPath(oldRef))
    requires k != StackPath(newRef) && k != BackupPath(StackPath(newRef))
    requires k != HistoryDir(oldRef) && k != HistoryDir(newRef)
    ensures Same(m, RenameLockedStep(m, faults, currentProject, oldRef, newRef).objects, k)
  {
    match GetCheckpoint(m, faults, oldRef)
    case Err(_) =>
    case Ok(chk) =>
      match Exists(m, faults, StackPath(newRef))
      case Err(_) =>
      case Ok(true) =>
      case Ok(false) =>
        var saved := SaveStackStep(m, faults, newRef, RenameSnapshot(chk.latest, newRef.name));
        assert Same(m, saved.objects, k) by {
          var m1 := Backup(m, faults, StackPath(newRef), true);
          assert Same(m, m1, k);
        }
        if saved.err.None? {
          var m3 := Backup(saved.objects, faults, StackPath(oldRef), false);
          assert Same(saved.objects, m3, k);
          if MoveHistory(m3, faults, HistoryDir(oldRef), HistoryDir(newRef)).Ok? {
            MoveHistoryKeeps(m3, faults, HistoryDir(oldRef), HistoryDir(newRef), k);
          }
        }
  }

  /** The footprint lies inside `.pulumi/`. */
  lemma RenameFootprintInBookkeeping(lockID: string, oldRef: StackReference, newRef: StackReference)
    ensures forall k :: k in RenameFootprint(lockID, oldRef, newRef) ==> InBookkeeping(k)
  {
    LayoutInBookkeeping(oldRef, FullyQualifiedName(oldRef), lockID);
    LayoutInBookkeeping(newRef, FullyQualifiedName(oldRef), lockID);
  }

  /** With a healthy bucket and a free destination, a rename moves the stack: the new
      file holds the old snapshot rewritten for the new name, the old file survives
      only as its backup, and the history follows. */
  lemma RenameMovesStack(m: Objects, lockID: string, currentProject: Option<string>,
                         oldRef: StackReference, newRef: StackReference)
    requires StackPath(oldRef) != StackPath(newRef) && HistoryDir(oldRef) != HistoryDir(newRef)
    requires !HeldByOther(Listing(m, LockDir(FullyQualifiedName(oldRef))), FullyQualifiedName(oldRef), lockID)
    requires StackPath(oldRef) in m && m[StackPath(oldRef)].CheckpointFile?
    requires StackPath(newRef) !in m
    ensures var s := RenameStackSpec(m, map[], lockID, currentProject, oldRef, newRef);
      && s.err.None?
      && StackPath(newRef) in s.objects
      && s.objects[StackPath(newRef)]
         == CheckpointFile(Checkpoint(FullyQualifiedName(newRef), RenameSnapshot(m[StackPath(oldRef)].checkpoint.latest, newRef.name)))
      && StackPath(oldRef) !in s.objects
      && BackupPath(StackPath(oldRef)) in s.objects && s.objects[BackupPath(StackPath(oldRef))] == m[StackPath(oldRef)]
      && HistoryDir(oldRef) !in s.objects
      && (HistoryDir(oldRef) in m ==> HistoryDir(newRef) in s.objects && s.objects[HistoryDir(newRef)] == m[HistoryDir(oldRef)])
  {
    var fqn := FullyQualifiedName(oldRef);
    var lk := LockKey(fqn, lockID);
    LayoutKeysDistinct(oldRef, newRef, fqn, lockID);
    LayoutKeysDistinct(newRef, oldRef, fqn, lockID);
    LayoutKeysDistinct(oldRef, oldRef, fqn, lockID);
    LayoutKeysDistinct(newRef, newRef, fqn, lockID);
    var lock := LockStep(m, map[], fqn, lockID);
    assert lock.err.None?;
    var m1 := lock.objects;
    RenameLockedMoves(m1, currentProject, oldRef, newRef, m[StackPath(oldRef)], if HistoryDir(oldRef) in m then Some(m[HistoryDir(oldRef)]) else None);
  }

  lemma RenameLockedMoves(m: Objects, currentProject: Option<string>, oldRef: StackReference, newRef: StackReference,
                          prior: Object, history: Option<Object>)
    requires StackPath(oldRef) != StackPath(newRef) && HistoryDir(oldRef) != HistoryDir(newRef)
    requires StackPath(oldRef) in m && m[StackPath(oldRef)] == prior && prior.CheckpointFile?
    requires StackPath(newRef) !in m
    requires history.Some? <==> HistoryDir(oldRef) in m
    requires history.Some? ==> m[HistoryDir(oldRef)] == history.value
    requires StackPath(oldRef) != HistoryDir(newRef) && StackPath(newRef) != HistoryDir(oldRef)
    requires StackPath(oldRef) != HistoryDir(oldRef) && StackPath(newRef) != HistoryDir(newRef)
    requires BackupPath(StackPath(oldRef)) != HistoryDir(oldRef) && BackupPath(StackPath(oldRef)) != HistoryDir(newRef)
    requires BackupPath(StackPath(oldRef)) != StackPath(newRef) && BackupPath(StackPath(newRef)) != StackPath(oldRef)
    requires BackupPath(StackPath(newRef)) != HistoryDir(oldRef) && BackupPath(StackPath(newRef)) != HistoryDir(newRef)
    ensures var s := RenameLockedStep(m, map[], currentProject, oldRef, newRef);
      && s.err.None?
      && StackPath(newRef) in s.objects
      && s.objects[StackPath(newRef)]
         == CheckpointFile(Checkpoint(FullyQualifiedName(newRef), RenameSnapshot(prior.checkpoint.latest, newRef.name)))
      && StackPath(oldRef) !in s.objects
      && BackupPath(StackPath(oldRef)) in s.objects && s.objects[BackupPath(StackPath(oldRef))] == prior
      && HistoryDir(oldRef) !in s.objects
      && (history.Some? ==> HistoryDir(newRef) in s.objects && s.objects[HistoryDir(newRef)] == history.value)
  {
    var op, np := StackPath(oldRef), StackPath(newRef);
    var oh, nh := HistoryDir(oldRef), HistoryDir(newRef);
    var saved := SaveStackStep(m, map[], newRef, RenameSnapshot(prior.checkpoint.latest, newRef.name));
    var m2 := saved.objects;
    assert Backup(m, map[], np, true) == m;
    assert m2 == m[np := CheckpointFile(Checkpoint(FullyQualifiedName(newRef), RenameSnapshot(prior.checkpoint.latest, newRef.name)))];
    var m3 := Backup(m2, map[], op, false);
    BackupMoves(m2, map[], op, false);
    assert m3 == m2[BackupPath(op) := prior] - {op};
    assert Same(m, m3, oh);
  }

  // ------------------------------------------------------------------ CancelCurrentUpdate

  /** `order` lists the elements of `entries`, each once. */
  predicate Enumerates(order: seq<Entry>, entries: set<Entry>) {
    && (forall e :: e in order ==> e in entries)
    && (forall e :: e in entries ==> e in order)
    && (forall i, j :: 0 <= i < j < |order| ==> order[i] != order[j])
  }

  /** The keys of the file entries in `order`. */
  function FileKeys(order: seq<Entry>): set<string> {
    set e | e in order && !e.isDir :: e.key
  }

  /** The deletion loop of `CancelCurrentUpdate`, over the entries in listing order:
      directories are skipped, a marker that has already gone ends the loop quietly,
      any other failure ends it with that error. */
  function CancelEntries(m: Objects, faults: Faults, order: seq<Entry>): Step
    decreases |order|
  {
    if order == [] then Step(m, [], None)
    else
      var e := order[0];
      if e.isDir then CancelEntries(m, faults, order[1..])
      else
        match Delete(m, faults, e.key)
        case Err(NotFound) => Step(m, [], None)
        case Err(err) => Step(m, [], Some(BucketFailed(err)))
        case Ok(m1) =>
          var rest := CancelEntries(m1, faults, order[1..]);
          Step(rest.objects, [MarkerDeleted(e.key)] + rest.events, rest.err)
  }

  /** `CancelCurrentUpdate`: list the stack's lock directory (a missing directory is not
      an error) and delete every marker in it, in listing order `order`. */
  function CancelSpec(m: Objects, faults: Faults, fqn: string, order: seq<Entry>): (s: Step)
    ensures List(m, faults, LockDir(fqn)).Err? ==>
      s.objects == m && s.events == [] && (s.err.None? <==> faults[LockDir(fqn)] == NotFound)
  {
    match List(m, faults, LockDir(fqn))
    case Err(NotFound) => Step(m, [], None)
    case Err(e) => Step(m, [], Some(BucketFailed(e)))
    case Ok(entries) => CancelEntries(m, faults, order)
  }

  /** The loop fails only on a marker whose deletion fails for another reason than
      being gone, and touches no key but the listed files'. */
  lemma {:induction false} CancelEntriesFrame(m: Objects, faults: Faults, order: seq<Entry>, k: string)
    ensures CancelEntries(m, faults, order).err.Some? ==> exists e :: e in order && !e.isDir && e.key in faults
    ensures k !in FileKeys(order) ==> Same(m, CancelEntries(m, faults, order).objects, k)
    decreases |order|
  {
    if order != [] {
      var e := order[0];
      var tail := order[1..];
      assert forall e' :: e' in tail ==> e' in order;
      assert FileKeys(tail) <= FileKeys(order);
      if e.isDir {
        CancelEntriesFrame(m, faults, tail, k);
      } else if Delete(m, faults, e.key).Ok? {
        CancelEntriesFrame(m - {e.key}, faults, tail, k);
      }
    }
  }

  /** Cancelling touches nothing outside the stack's lock directory. */
  lemma CancelStaysInLockDir(m: Objects, faults: Faults, fqn: string, order: seq<Entry>, k: string)
    requires !HasPrefix(k, LockDir(fqn) + "/")
    requires List(m, faults, LockDir(fqn)).Ok? ==> Enumerates(order, List(m, faults, LockDir(fqn)).value)
    ensures Same(m, CancelSpec(m, faults, fqn, order).objects, k)
  {
    if List(m, faults, LockDir(fqn)).Ok? {
      CancelEntriesFrame(m, faults, order, k);
    }
  }

  /** One `MarkerDeleted` per file entry, in listing order. */
  function DeletionEvents(order: seq<Entry>): seq<Event> {
    if order == [] then []
    else (if order[0].isDir then [] else [MarkerDeleted(order[0].key)]) + DeletionEvents(order[1..])
  }

  /** A marker that is already gone ends the loop: the markers after it stay. */
  lemma CancelStopsAtMissingMarker(m: Objects, faults: Faults, e: Entry, rest: seq<Entry>)
    requires !e.isDir && e.key !in m && e.key !in faults
    ensures CancelEntries(m, faults, [e] + rest) == Step(m, [], None)
  {
    assert ([e] + rest)[0] == e;
  }

  /** With every listed marker present and no failures, the loop deletes exactly the
      listed files, one event each, in listing order. */
  lemma {:induction false} CancelDeletesListedFiles(m: Objects, faults: Faults, order: seq<Entry>)
    requires forall e :: e in order && !e.isDir ==> e.key in m && e.key !in faults
    requires forall i, j :: 0 <= i < j < |order| && !order[i].isDir && !order[j].isDir ==> order[i].key != order[j].key
    ensures CancelEntries(m, faults, order).err.None?
    ensures CancelEntries(m, faults, order).objects == m - FileKeys(order)
    ensures CancelEntries(m, faults, order).events == DeletionEvents(order)
    decreases |order|
  {
    if order == [] {
    } else {
      var e := order[0];
      var tail := order[1..];
      assert forall e' :: e' in tail ==> e' in order;
      if e.isDir {
        CancelDeletesListedFiles(m, faults, tail);
        assert FileKeys(order) == FileKeys(tail);
      } else {
        var m1 := m - {e.key};
        CancelTailReady(m, faults, order);
        CancelDeletesListedFiles(m1, faults, tail);
        CancelDeletesFirstFile(m, faults, order);
      }
    }
  }

  /** After deleting the first marker, the rest of the listing still meets the
      requirements of `CancelDeletesListedFiles`. */
  lemma CancelTailReady(m: Objects, faults: Faults, order: seq<Entry>)
    requires order != [] && !order[0].isDir
    requires forall e :: e in order && !e.isDir ==> e.key in m && e.key !in faults
    requires forall i, j :: 0 <= i < j < |order| && !order[i].isDir && !order[j].isDir ==> order[i].key != order[j].key
    ensures order[0].key !in FileKeys(order[1..])
    ensures forall e :: e in order[1..] && !e.isDir ==> e.key in m - {order[0].key} && e.key !in faults
    ensures forall i, j :: 0 <= i < j < |order[1..]| && !order[1..][i].isDir && !order[1..][j].isDir
                           ==> order[1..][i].key != order[1..][j].key
  {
    var tail := order[1..];
    forall i | 0 <= i < |tail| && !tail[i].isDir ensures tail[i].key != order[0].key {
      assert order[i + 1] == tail[i];
    }
    forall i, j | 0 <= i < j < |tail| && !tail[i].isDir && !tail[j].isDir
      ensures tail[i].key != tail[j].key
    {
      assert order[i + 1] == tail[i] && order[j + 1] == tail[j];
    }
  }

  /** The inductive step of `CancelDeletesListedFiles` for a file entry. */
  lemma CancelDeletesFirstFile(m: Objects, faults: Faults, order: seq<Entry>)
    requires order != [] && !order[0].isDir
    requires order[0].key in m && order[0].key !in faults && order[0].key !in FileKeys(order[1..])
    requires var rest := CancelEntries(m - {order[0].key}, faults, order[1..]);
      && rest.err.None?
      && rest.objects == m - {order[0].key} - FileKeys(order[1..])
      && rest.events == DeletionEvents(order[1..])
    ensures CancelEntries(m, faults, order).err.None?
    ensures CancelEntries(m, faults, order).objects == m - FileKeys(order)
    ensures CancelEntries(m, faults, order).events == DeletionEvents(order)
  {
    var e := order[0];
    var tail := order[1..];
    assert FileKeys(order) == {e.key} + FileKeys(tail) by {
      assert order == [e] + tail;
    }
    assert m - {e.key} - FileKeys(tail) == m - FileKeys(order);
  }

  /** Cancelling with a healthy bucket removes every marker directly in the stack's lock
      directory, and nothing outside it. */
  lemma CancelClearsLockDir(m: Objects, faults: Faults, fqn: string, order: seq<Entry>)
    requires LockDir(fqn) !in faults
    requires forall k :: k in faults ==> !HasPrefix(k, LockDir(fqn) + "/")
    requires Enumerates(order, Listing(m, LockDir(fqn)))
    ensures CancelSpec(m, faults, fqn, order).err.None?
    ensures forall e :: e in Listing(CancelSpec(m, faults, fqn, order).objects, LockDir(fqn)) ==> e.isDir
  {
    var dir := LockDir(fqn);
    forall e | e in order && !e.isDir ensures e.key in m && e.key !in faults {
      ListedFileIsKey(m, dir, e);
    }
    forall i, j | 0 <= i < j < |order| && !order[i].isDir && !order[j].isDir
      ensures order[i].key != order[j].key
    {
      ListedFileIsOwnEntry(m, dir, order[i]);
      ListedFileIsOwnEntry(m, dir, order[j]);
    }
    CancelDeletesListedFiles(m, faults, order);
    var after := m - FileKeys(order);
    forall e | e in Listing(after, dir) ensures e.isDir {
      if !e.isDir {
        ListedFileIsOwnEntry(after, dir, e);
        ListedFileIsKey(after, dir, e);
      }
    }
  }

  // ------------------------------------------------------------------ Upgrade

  /** The project named by the first resource's URN, or "" when there is none. */
  function InferProject(chk: Checkpoint): string {
    if chk.latest.None? || |chk.latest.value.resources| == 0 then ""
    else chk.latest.value.resources[0].urn.project
  }

  /** The reference a legacy stack moves to. */
  function UpgradedReference(legacy: StackReference, project: string): (r: StackReference)
    ensures r.store.ProjectStore? && r.name == legacy.name && r.project == project
  {
    StackReference(legacy.name, project, ProjectStore)
  }

  const UpgradeListingContext: string := "read old references"
  const ManifestWriteContext: string := "could not write 'Pulumi.yaml'"

  function UpgradeStackContext(legacy: StackReference, target: StackReference, currentProject: Option<string>): string {
    "upgrade stack " + String(legacy, currentProject) + " to " + String(target, currentProject)
  }

  /** One iteration of `Upgrade`'s loop: load the legacy stack, infer its project, and
      rename it into the project layout. */
  function MigrateOne(m: Objects, faults: Faults, lockID: string, currentProject: Option<string>,
                      legacy: StackReference): Step
  {
    match GetCheckpoint(m, faults, legacy)
    case Err(e) => Step(m, [Loaded(StackPath(legacy))], Some(e))
    case Ok(chk) =>
      var s := MigrateLoaded(m, faults, lockID, currentProject, legacy, chk);
      Step(s.objects, [Loaded(StackPath(legacy))] + s.events, s.err)
  }

  /** The rest of the iteration, once the checkpoint `chk` is loaded. */
  function MigrateLoaded(m: Objects, faults: Faults, lockID: string, currentProject: Option<string>,
                         legacy: StackReference, chk: Checkpoint): Step
  {
    var project := InferProject(chk);
    if project == "" then Step(m, [], Some(NoProjectFound(String(legacy, currentProject))))
    else
      var target := UpgradedReference(legacy, project);
      var s := RenameStackSpec(m, faults, lockID, currentProject, legacy, target);
      Step(s.objects, s.events,
           if s.err.Some? then Some(Wrapped(UpgradeStackContext(legacy, target, currentProject), s.err.value)) else None)
  }

  /** `Upgrade`'s loop over the legacy references, stopping at the first error. */
  function MigrateAll(m: Objects, faults: Faults, lockID: string, currentProject: Option<string>,
                      olds: seq<StackReference>): Step
    decreases |olds|
  {
    if olds == [] then Step(m, [], None)
    else
      var prev := MigrateAll(m, faults, lockID, currentProject, olds[..|olds| - 1]);
      if prev.err.Some? then prev
      else
        var s := MigrateOne(prev.objects, faults, lockID, currentProject, olds[|olds| - 1]);
        Step(s.objects, prev.events + s.events, s.err)
  }

  /** One more reference extends the loop by one iteration, unless it already failed. */
  lemma MigrateAllExtends(m: Objects, faults: Faults, lockID: string, currentProject: Option<string>,
                          olds: seq<StackReference>, i: nat)
    requires i < |olds|
    ensures var prev := MigrateAll(m, faults, lockID, currentProject, olds[..i]);
      var one := MigrateOne(prev.objects, faults, lockID, currentProject, olds[i]);
      MigrateAll(m, faults, lockID, currentProject, olds[..i + 1])
      == if prev.err.Some? then prev else Step(one.objects, prev.events + one.events, one.err)
  {
    assert olds[..i + 1][..i] == olds[..i];
  }

  /** `Upgrade` on the legacy references `olds` (found by listing the stacks directory):
      migrate each, then write the version-1 manifest. The caller switches to the project
      store exactly when this reports no error. */
  function UpgradeSpec(m: Objects, faults: Faults, lockID: string, currentProject: Option<string>,
                       olds: seq<StackReference>): (s: Step)
    ensures s.err.None? ==> ManifestKey in s.objects && s.objects[ManifestKey] == Manifest(1)
    ensures s.err.None? ==> |s.events| > 0 && s.events[|s.events| - 1] == ManifestWritten
  {
    var mig := MigrateAll(m, faults, lockID, currentProject, olds);
    if mig.err.Some? then mig
    else
      match Write(mig.objects, faults, ManifestKey, Manifest(1))
      case Err(e) => Step(mig.objects, mig.events, Some(Wrapped(ManifestWriteContext, BucketFailed(e))))
      case Ok(m2) => Step(m2, mig.events + [ManifestWritten], None)
  }

  /** A legacy stack whose latest snapshot is missing or has no resources stops the
      upgrade with "no project found", before anything is written. */
  lemma MigrateNeedsAResource(m: Objects, faults: Faults, lockID: string, currentProject: Option<string>,
                              legacy: StackReference)
    requires GetCheckpoint(m, faults, legacy).Ok?
    requires var chk := GetCheckpoint(m, faults, legacy).value;
      chk.latest.None? || |chk.latest.value.resources| == 0
    ensures MigrateOne(m, faults, lockID, currentProject, legacy)
         == Step(m, [Loaded(StackPath(legacy))], Some(NoProjectFound(String(legacy, currentProject))))
  {
  }

  /** Otherwise the stack is renamed into the project named by its first resource. */
  lemma MigrateTargetsFirstResourceProject(m: Objects, faults: Faults, lockID: string, currentProject: Option<string>,
                                           legacy: StackReference)
    requires GetCheckpoint(m, faults, legacy).Ok?
    requires var chk := GetCheckpoint(m, faults, legacy).value;
      chk.latest.Some? && |chk.latest.value.resources| > 0 && chk.latest.value.resources[0].urn.project != ""
    ensures var p := m[StackPath(legacy)].checkpoint.latest.value.resources[0].urn.project;
      var s := RenameStackSpec(m, faults, lockID, currentProject, legacy, StackReference(legacy.name, p, ProjectStore));
      && MigrateOne(m, faults, lockID, currentProject, legacy).objects == s.objects
      && (MigrateOne(m, faults, lockID, currentProject, legacy).err.None? <==> s.err.None?)
  {
  }

  /** Once an iteration fails, the later references are not touched. */
  lemma {:induction false} MigrateAllStopsAtFirstError(m: Objects, faults: Faults, lockID: string,
                                                       currentProject: Option<string>, olds: seq<StackReference>, i: nat)
    requires i <= |olds|
    requires MigrateAll(m, faults, lockID, currentProject, olds[..i]).err.Some?
    ensures MigrateAll(m, faults, lockID, currentProject, olds) == MigrateAll(m, faults, lockID, currentProject, olds[..i])
    decreases |olds| - i
  {
    if i < |olds| {
      var longer := olds[..|olds| - 1];
      assert longer[..i] == olds[..i];
      MigrateAllStopsAtFirstError(m, faults, lockID, currentProject, longer, i);
      assert olds[..|olds|] == olds;
    } else {
      assert olds[..i] == olds;
    }
  }

  /** Migration only touches keys under `.pulumi/`. */
  lemma {:induction false} MigrateAllInBookkeeping(m: Objects, faults: Faults, lockID: string,
                                                   currentProject: Option<string>, olds: seq<StackReference>, k: string)
    requires !InBookkeeping(k)
    ensures Same(m, MigrateAll(m, faults, lockID, currentProject, olds).objects, k)
    decreases |olds|
  {
    if olds != [] {
      var prefix := olds[..|olds| - 1];
      MigrateAllInBookkeeping(m, faults, lockID, currentProject, prefix, k);
      var prev := MigrateAll(m, faults, lockID, currentProject, prefix);
      if prev.err.None? {
        var legacy := olds[|olds| - 1];
        var chk := GetCheckpoint(prev.objects, faults, legacy);
        if chk.Ok? && InferProject(chk.value) != "" {
          var target := UpgradedReference(legacy, InferProject(chk.value));
          RenameFootprintInBookkeeping(lockID, legacy, target);
          RenameFrame(prev.objects, faults, lockID, currentProject, legacy, target, k);
        }
      }
    }
  }

  /** A failed upgrade leaves the manifest as it was, so the bucket keeps its layout
      version. */
  lemma UpgradeFailureKeepsManifest(m: Objects, faults: Faults, lockID: string, currentProject: Option<string>,
                                    olds: seq<StackReference>)
    requires UpgradeSpec(m, faults, lockID, currentProject, olds).err.Some?
    ensures Same(m, UpgradeSpec(m, faults, lockID, currentProject, olds).objects, ManifestKey)
  {
    ManifestOutsideBookkeeping();
    MigrateAllInBookkeeping(m, faults, lockID, currentProject, olds, ManifestKey);
  }

  /** An upgrade succeeds exactly when every stack migrates and the manifest is written. */
  lemma UpgradeSucceedsExactly(m: Objects, faults: Faults, lockID: string, currentProject: Option<string>,
                               olds: seq<StackReference>)
    ensures UpgradeSpec(m, faults, lockID, currentProject, olds).err.None?
        <==> MigrateAll(m, faults, lockID, currentProject, olds).err.None? && ManifestKey !in faults
  {
  }

  // ------------------------------------------------------------------ listings

  /** The legacy store's references: each checkpoint file directly in the stacks
      directory, named by its file name without the extension. */
  function LegacyRefs(order: seq<Entry>): (refs: seq<StackReference>)
    ensures forall r :: r in refs ==> r.store.LegacyStore? && r.project == ""
    ensures forall r :: r in refs ==> exists e :: e in order && !e.isDir && e.name == r.name + CheckpointExtension
  {
    if order == [] then []
    else
      var e := order[0];
      var rest := LegacyRefs(order[1..]);
      assert forall e' :: e' in order[1..] ==> e' in order;
      if !e.isDir && HasSuffix(e.name, CheckpointExtension) then
        var name := e.name[..|e.name| - |CheckpointExtension|];
        assert e.name == name + CheckpointExtension;
        [StackReference(name, "", LegacyStore)] + rest
      else rest
  }

  /** Each legacy reference found in a listing of the stacks directory points at a
      checkpoint file that is in the bucket. */
  lemma LegacyRefsPointAtListedFiles(m: Objects, order: seq<Entry>, r: StackReference)
    requires forall e :: e in order ==> e in Listing(m, StacksDir)
    requires r in LegacyRefs(order)
    ensures StackPath(r) in m
  {
    var e :| e in order && !e.isDir && e.name == r.name + CheckpointExtension;
    ListedFileKeyShape(m, StacksDir, e);
    ListedFileIsKey(m, StacksDir, e);
    ConcatAssociates(StacksDir + "/", r.name, CheckpointExtension);
  }

  /** Conversely, every listed checkpoint file yields its legacy reference. */
  lemma {:induction false} LegacyRefsCoverListedFiles(order: seq<Entry>, e: Entry, name: string)
    requires e in order && !e.isDir && e.name == name + CheckpointExtension
    ensures StackReference(name, "", LegacyStore) in LegacyRefs(order)
    decreases |order|
  {
    if order[0] == e {
      assert HasSuffix(e.name, CheckpointExtension) by {
        assert e.name[|e.name| - |CheckpointExtension|..] == CheckpointExtension;
      }
      assert e.name[..|e.name| - |CheckpointExtension|] == name;
    } else {
      assert e in order[1..];
      LegacyRefsCoverListedFiles(order[1..], e, name);
    }
  }

  /** So a listing of the stacks directory yields a legacy reference for every stack
      file kept there: nothing is missed by `Upgrade`. */
  lemma LegacyRefsCoverBucket(m: Objects, order: seq<Entry>, name: string)
    requires Enumerates(order, Listing(m, StacksDir))
    requires '/' !in name && StacksDir + "/" + name + CheckpointExtension in m
    ensures StackReference(name, "", LegacyStore) in LegacyRefs(order)
  {
    var file := name + CheckpointExtension;
    assert '/' !in file by {
      assert forall i :: 0 <= i < |file| ==> file[i] == (if i < |name| then name[i] else CheckpointExtension[i - |name|]);
    }
    ConcatAssociates(StacksDir + "/", name, CheckpointExtension);
    KeyIsListedFile(m, StacksDir, file);
    LegacyRefsCoverListedFiles(order, Entry(file, StacksDir + "/" + file, false), name);
  }

  /** `getLocalProjects`' filter: the sub-directories of the stacks directory whose
      names are valid project names, in listing order. */
  function ProjectNames(order: seq<Entry>): (names: seq<string>)
    ensures |names| <= |order|
  {
    if order == [] then []
    else
      var e := order[|order| - 1];
      ProjectNames(order[..|order| - 1]) + (if e.isDir && IsName(e.name) then [e.name] else [])
  }

  /** A name is reported exactly when a listed directory carries it and it is valid. */
  lemma {:induction false} ProjectNamesExactly(order: seq<Entry>, x: string)
    ensures x in ProjectNames(order) <==> exists e :: e in order && e.isDir && IsName(e.name) && e.name == x
    decreases |order|
  {
    if order != [] {
      var init := order[..|order| - 1];
      ProjectNamesExactly(init, x);
      assert order == init + [order[|order| - 1]];
      assert forall e :: e in order <==> e == order[|order| - 1] || e in init;
    }
  }

  // ------------------------------------------------------------------ apply

  const SaveUpdateContext: string := "saving update info"
  const SaveBackupContext: string := "saving backup"

  /** The error `apply` returns once the operation has run: the operation's own failure
      first, then a failure to record the update in the history, then a failure to back
      up the checkpoint. A preview (`dryRun`) records nothing, so only its own failure
      can be reported. */
  function ApplyResult(updateErr: Option<string>, dryRun: bool, saveErr: Option<Error>, backupErr: Option<Error>): (r: Option<Error>)
    ensures updateErr.Some? ==> r == Some(UpdateFailed(updateErr.value))
    ensures r.None? <==> updateErr.None? && (dryRun || (saveErr.None? && backupErr.None?))
    ensures r.Some? && updateErr.None? ==> !dryRun
    ensures updateErr.None? && !dryRun && saveErr.Some? ==> r == Some(Wrapped(SaveUpdateContext, saveErr.value))
    ensures updateErr.None? && !dryRun && saveErr.None? && backupErr.Some? ==> r == Some(Wrapped(SaveBackupContext, backupErr.value))
  {
    if updateErr.Some? then Some(UpdateFailed(updateErr.value))
    else if dryRun then None
    else if saveErr.Some? then Some(Wrapped(SaveUpdateContext, saveErr.value))
    else if backupErr.Some? then Some(Wrapped(SaveBackupContext, backupErr.value))
    else None
  }

  /** A lower-ranked failure never masks a higher-ranked one. */
  lemma ApplyRanking(updateErr: Option<string>, dryRun: bool, saveErr: Option<Error>, backupErr: Option<Error>,
                     otherSave: Option<Error>, otherBackup: Option<Error>)
    requires saveErr.Some? && otherSave.Some?
    ensures updateErr.Some? ==> ApplyResult(updateErr, dryRun, saveErr, backupErr) == ApplyResult(updateErr, dryRun, otherSave, otherBackup)
    ensures ApplyResult(updateErr, dryRun, saveErr, backupErr) == ApplyResult(updateErr, dryRun, saveErr, otherBackup)
  {
  }
}
