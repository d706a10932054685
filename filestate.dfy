/** The self-managed backend (`localBackend`) as an object over its bucket. Its fields
    are the bucket's objects, the reference store in use (swapped by `Upgrade`), the
    current project and this instance's lock identifier; the ghost `trace` records the
    observable steps in order. Each method is proved to do exactly what the matching
    function of `BackendSpec` describes, so the lemmas proved there hold of it. */
module Filestate {
  import opened Wrappers
  import opened Paths
  import opened References
  import opened Bucket
  import opened BackendSpec

  /** The warning printed for a legacy stack file found in a project-layout bucket. */
  function LegacyFileWarning(name: string): string {
    "Found legacy stack file '" + name + "', you should run 'pulumi state upgrade'"
  }

  /** One warning per legacy reference, in order. */
  function LegacyWarnings(refs: seq<StackReference>): seq<string> {
    seq(|refs|, j requires 0 <= j < |refs| => LegacyFileWarning(refs[j].name))
  }

  /** Every legacy checkpoint in the stacks directory is warned about. */
  lemma LegacyWarningsCoverBucket(m: Objects, order: seq<Entry>, name: string)
    requires Enumerates(order, Listing(m, StacksDir))
    requires '/' !in name && StacksDir + "/" + name + CheckpointExtension in m
    ensures LegacyFileWarning(name) in LegacyWarnings(LegacyRefs(order))
  {
    var refs := LegacyRefs(order);
    LegacyRefsCoverBucket(m, order, name);
    var j :| 0 <= j < |refs| && refs[j] == StackReference(name, "", LegacyStore);
    assert LegacyWarnings(refs)[j] == LegacyFileWarning(name);
  }

  class LocalBackend {
    var objects: Objects
    const faults: Faults
    var store: StoreKind
    var currentProject: Option<string>
    const lockID: string
    ghost var trace: seq<Event>

    constructor (objects: Objects, faults: Faults, lockID: string, store: StoreKind, currentProject: Option<string>)
      ensures this.objects == objects && this.faults == faults && this.lockID == lockID
      ensures this.store == store && this.currentProject == currentProject && trace == []
    {
      this.objects := objects;
      this.faults := faults;
      this.lockID := lockID;
      this.store := store;
      this.currentProject := currentProject;
      trace := [];
    }

    /** `New`, once the bucket is open: the manifest's version picks the store, and a
        project-layout backend warns about every legacy stack file it still finds.
        A failed listing only suppresses the warnings. */
    static method New(objects: Objects, faults: Faults, lockID: string, currentProject: Option<string>, version: int)
      returns (r: Result<LocalBackend, string>, warnings: seq<string>)
      ensures r.Ok? <==> SelectStore(version).Ok?
      ensures r.Err? ==> r.error == SelectStore(version).error && warnings == []
      ensures r.Ok? ==> fresh(r.value) && r.value.store == SelectStore(version).value
      ensures r.Ok? ==> r.value.objects == objects && r.value.faults == faults && r.value.lockID == lockID
      ensures r.Ok? ==> r.value.currentProject == currentProject && r.value.trace == []
      ensures warnings != [] ==> version == 1
      ensures !(r.Ok? && r.value.store.ProjectStore? && StacksDir !in faults) ==> warnings == []
      ensures r.Ok? && r.value.store.ProjectStore? && StacksDir !in faults ==>
        exists order :: Enumerates(order, Listing(objects, StacksDir)) && warnings == LegacyWarnings(LegacyRefs(order))
      ensures r.Ok? && r.value.store.ProjectStore? && StacksDir !in faults ==>
        forall name :: '/' !in name && StacksDir + "/" + name + CheckpointExtension in objects ==> LegacyFileWarning(name) in warnings
    {
      warnings := [];
      var kind := SelectStore(version);
      if kind.Err? {
        return Err(kind.error), [];
      }
      var b := new LocalBackend(objects, faults, lockID, kind.value, currentProject);
      r := Ok(b);
      if kind.value.ProjectStore? {
        var listing := b.ListBucket(StacksDir);
        if listing.Ok? {
          var refs := LegacyRefs(listing.value);
          for i := 0 to |refs|
            invariant warnings == seq(i, j requires 0 <= j < i => LegacyFileWarning(refs[j].name))
          {
            warnings := warnings + [LegacyFileWarning(refs[i].name)];
          }
          assert warnings == LegacyWarnings(refs);
          assert Enumerates(listing.value, Listing(objects, StacksDir));
          forall name | '/' !in name && StacksDir + "/" + name + CheckpointExtension in objects
            ensures LegacyFileWarning(name) in warnings
          {
            LegacyWarningsCoverBucket(objects, listing.value, name);
          }
        }
      }
    }

    /** `SetCurrentProject`. */
    method SetCurrentProject(project: Option<string>)
      modifies this`currentProject
      ensures currentProject == project
    {
      currentProject := project;
    }

    /** How this backend prints a reference. */
    function Render(r: StackReference): (s: string)
      reads this
      ensures s == r.name <==> r.project == "" || currentProject == Some(r.project)
    {
      StringElidesExactly(r, currentProject);
      String(r, currentProject)
    }

    // ---------------------------------------------------------------- bucket helpers

    /** `listBucket`: the listing of `dir`, in some order, each entry once. */
    method ListBucket(dir: string) returns (r: Result<seq<Entry>, BucketError>)
      ensures r.Err? <==> List(objects, faults, dir).Err?
      ensures r.Err? ==> r.error == List(objects, faults, dir).error
      ensures r.Ok? ==> Enumerates(r.value, List(objects, faults, dir).value)
    {
      var listing := List(objects, faults, dir);
      if listing.Err? {
        return Err(listing.error);
      }
      var remaining := listing.value;
      var order: seq<Entry> := [];
      while remaining != {}
        invariant forall e :: e in order ==> e in listing.value && e !in remaining
        invariant forall e :: e in listing.value ==> e in order || e in remaining
        invariant remaining <= listing.value
        invariant forall i, j :: 0 <= i < j < |order| ==> order[i] != order[j]
        decreases |remaining|
      {
        var e :| e in remaining;
        order := order + [e];
        remaining := remaining - {e};
      }
      return Ok(order);
    }

    /** `Lock`. */
    method Lock(fqn: string) returns (err: Option<Error>)
      modifies this`objects, this`trace
      ensures var s := LockStep(old(objects), faults, fqn, lockID);
        objects == s.objects && trace == old(trace) + s.events && err == s.err
    {
      var listing := List(objects, faults, LockDir(fqn));
      if listing.Err? {
        return Some(BucketFailed(listing.error));
      }
      if HeldByOther(listing.value, fqn, lockID) {
        return Some(StackLocked(fqn));
      }
      var written := Write(objects, faults, LockKey(fqn, lockID), LockFile(lockID));
      if written.Err? {
        return Some(BucketFailed(written.error));
      }
      objects := written.value;
      trace := trace + [Locked(fqn)];
      return None;
    }

    /** `Unlock`; its error is dropped, as the deferred call drops it. */
    method Unlock(fqn: string)
      modifies this`objects, this`trace
      ensures var s := UnlockStep(old(objects), faults, fqn, lockID);
        objects == s.objects && trace == old(trace) + s.events
    {
      var deleted := Delete(objects, faults, LockKey(fqn, lockID));
      if deleted.Ok? {
        objects := deleted.value;
      }
      trace := trace + [Unlocked(fqn)];
    }

    /** `getStack`: load the stack's checkpoint. */
    method GetStack(r: StackReference) returns (chk: Result<Checkpoint, Error>)
      modifies this`trace
      ensures chk == GetCheckpoint(objects, faults, r)
      ensures trace == old(trace) + [Loaded(StackPath(r))]
    {
      var read := Read(objects, faults, StackPath(r));
      trace := trace + [Loaded(StackPath(r))];
      if read.Err? {
        return Err(BucketFailed(read.error));
      }
      match read.value
      case CheckpointFile(c) => return Ok(c);
      case _ => return Err(NotACheckpoint(StackPath(r)));
    }

    /** `backupTarget`. */
    method BackupTarget(file: string, keepOriginal: bool)
      modifies this`objects, this`trace
      ensures objects == Backup(old(objects), faults, file, keepOriginal)
      ensures trace == old(trace) + [BackedUp(file)]
    {
      var read := Read(objects, faults, file);
      if read.Ok? {
        var written := Write(objects, faults, BackupPath(file), read.value);
        if written.Ok? {
          objects := written.value;
          if !keepOriginal {
            var deleted := Delete(objects, faults, file);
            if deleted.Ok? {
              objects := deleted.value;
            }
          }
        }
      }
      trace := trace + [BackedUp(file)];
    }

    /** `saveStack`. */
    method SaveStack(r: StackReference, snap: Option<Snapshot>) returns (err: Option<Error>)
      modifies this`objects, this`trace
      ensures var s := SaveStackStep(old(objects), faults, r, snap);
        objects == s.objects && trace == old(trace) + s.events && err == s.err
    {
      var path := StackPath(r);
      BackupTarget(path, true);
      var written := Write(objects, faults, path, CheckpointFile(Checkpoint(FullyQualifiedName(r), snap)));
      if written.Err? {
        return Some(Wrapped("An IO error occurred while writing the new snapshot file", BucketFailed(written.error)));
      }
      objects := written.value;
      trace := trace + [Saved(path)];
      return None;
    }

    /** `renameHistory`. */
    method RenameHistory(oldRef: StackReference, newRef: StackReference) returns (err: Option<Error>)
      modifies this`objects, this`trace
      ensures var moved := MoveHistory(old(objects), faults, HistoryDir(oldRef), HistoryDir(newRef));
        && (moved.Ok? ==> objects == moved.value && err.None?
                          && trace == old(trace) + [HistoryMoved(HistoryDir(oldRef), HistoryDir(newRef))])
        && (moved.Err? ==> objects == old(objects) && err == Some(BucketFailed(moved.error)) && trace == old(trace))
    {
      var moved := MoveHistory(objects, faults, HistoryDir(oldRef), HistoryDir(newRef));
      if moved.Err? {
        return Some(BucketFailed(moved.error));
      }
      objects := moved.value;
      trace := trace + [HistoryMoved(HistoryDir(oldRef), HistoryDir(newRef))];
      return None;
    }

    /** `removeStack`: move the stack file to its backup, then delete the history; a
        history that is not there is not an error. */
    method RemoveStackFiles(r: StackReference) returns (err: Option<Error>)
      modifies this`objects, this`trace
      ensures var s := RemoveStackFilesStep(old(objects), faults, r);
        objects == s.objects && trace == old(trace) + s.events && err == s.err
    {
      BackupTarget(StackPath(r), false);
      var deleted := Delete(objects, faults, HistoryDir(r));
      if deleted.Err? && deleted.error != NotFound {
        return Some(BucketFailed(deleted.error));
      }
      if deleted.Ok? {
        objects := deleted.value;
      }
      trace := trace + [HistoryRemoved(HistoryDir(r))];
      return None;
    }

    // ---------------------------------------------------------------- operations

    /** `RemoveStack`. */
    method RemoveStack(r: StackReference, force: bool) returns (hasResources: bool, err: Option<Error>)
      modifies this`objects, this`trace
      ensures var (s, h) := RemoveStackSpec(old(objects), faults, lockID, r, force);
        objects == s.objects && trace == old(trace) + s.events && err == s.err && hasResources == h
    {
      var fqn := FullyQualifiedName(r);
      ghost var t0 := trace;
      ghost var lock := LockStep(objects, faults, fqn, lockID);
      err := Lock(fqn);
      if err.Some? {
        return false, err;
      }
      ghost var body := RemoveLockedStep(objects, faults, r, force).0;
      hasResources, err := RemoveLocked(r, force);
      ghost var unlock := UnlockStep(objects, faults, fqn, lockID);
      Unlock(fqn);
      ConcatAssociates(t0, lock.events, body.events);
      ConcatAssociates(t0, lock.events + body.events, unlock.events);
    }

    /** The part of `RemoveStack` that runs under the lock. */
    method RemoveLocked(r: StackReference, force: bool) returns (hasResources: bool, err: Option<Error>)
      modifies this`objects, this`trace
      ensures var (s, h) := RemoveLockedStep(old(objects), faults, r, force);
        objects == s.objects && trace == old(trace) + s.events && err == s.err && hasResources == h
    {
      ghost var t0 := trace;
      var chk := GetStack(r);
      if chk.Err? {
        return false, Some(chk.error);
      }
      var latest := chk.value.latest;
      if !force && latest.Some? && |latest.value.resources| > 0 {
        return true, Some(StillHasResources);
      }
      ghost var loaded := trace;
      err := RemoveStackFiles(r);
      ConcatAssociates(t0, [Loaded(StackPath(r))], trace[|loaded|..]);
      hasResources := false;
    }

    /** `renameStack`. */
    method RenameStack(oldRef: StackReference, newRef: StackReference) returns (err: Option<Error>)
      modifies this`objects, this`trace
      ensures var s := RenameStackSpec(old(objects), faults, lockID, currentProject, oldRef, newRef);
        objects == s.objects && trace == old(trace) + s.events && err == s.err
    {
      var fqn := FullyQualifiedName(oldRef);
      ghost var t0 := trace;
      ghost var lock := LockStep(objects, faults, fqn, lockID);
      err := Lock(fqn);
      if err.Some? {
        return;
      }
      ghost var body := RenameLockedStep(objects, faults, currentProject, oldRef, newRef);
      err := RenameLocked(oldRef, newRef);
      ghost var unlock := UnlockStep(objects, faults, fqn, lockID);
      Unlock(fqn);
      ConcatAssociates(t0, lock.events, body.events);
      ConcatAssociates(t0, lock.events + body.events, unlock.events);
    }

    /** The part of `renameStack` that runs under the lock. */
    method RenameLocked(oldRef: StackReference, newRef: StackReference) returns (err: Option<Error>)
      modifies this`objects, this`trace
      ensures var s := RenameLockedStep(old(objects), faults, currentProject, oldRef, newRef);
        objects == s.objects && trace == old(trace) + s.events && err == s.err
    {
      var chk := GetStack(oldRef);
      if chk.Err? {
        return Some(chk.error);
      }
      var existing := Exists(objects, faults, StackPath(newRef));
      if existing.Err? {
        return Some(BucketFailed(existing.error));
      }
      if existing.value {
        return Some(StackAlreadyExists(String(newRef, currentProject)));
      }
      ghost var t0 := old(trace);
      ghost var saved := SaveStackStep(objects, faults, newRef, RenameSnapshot(chk.value.latest, newRef.name));
      err := SaveStack(newRef, RenameSnapshot(chk.value.latest, newRef.name));
      ConcatAssociates(t0, [Loaded(StackPath(oldRef))], saved.events);
      if err.Some? {
        return;
      }
      BackupTarget(StackPath(oldRef), false);
      ConcatAssociates(t0, [Loaded(StackPath(oldRef))] + saved.events, [BackedUp(StackPath(oldRef))]);
      ghost var events := [Loaded(StackPath(oldRef))] + saved.events + [BackedUp(StackPath(oldRef))];
      err := RenameHistory(oldRef, newRef);
      ConcatAssociates(t0, events, [HistoryMoved(HistoryDir(oldRef), HistoryDir(newRef))]);
    }

    /** `CancelCurrentUpdate`: force-delete every lock marker of the stack; `order` is
        the listing order the deletions followed. */
    method CancelCurrentUpdate(fqn: string) returns (err: Option<Error>, ghost order: seq<Entry>)
      modifies this`objects, this`trace
      ensures List(old(objects), faults, LockDir(fqn)).Ok? ==> Enumerates(order, List(old(objects), faults, LockDir(fqn)).value)
      ensures var s := CancelSpec(old(objects), faults, fqn, order);
        objects == s.objects && trace == old(trace) + s.events && err == s.err
    {
      var listing := ListBucket(LockDir(fqn));
      if listing.Err? {
        order := [];
        if listing.error == NotFound {
          return None, order;
        }
        return Some(BucketFailed(listing.error)), order;
      }
      var files := listing.value;
      order := files;
      ghost var m0 := objects;
      ghost var done: seq<Event> := [];
      var i := 0;
      while i < |files|
        invariant 0 <= i <= |files|
        invariant trace == old(trace) + done
        invariant var rest := CancelEntries(objects, faults, files[i..]);
          CancelEntries(m0, faults, files) == Step(rest.objects, done + rest.events, rest.err)
      {
        var e := files[i];
        assert files[i..][1..] == files[i + 1..];
        if !e.isDir {
          var deleted := Delete(objects, faults, e.key);
          if deleted.Err? {
            if deleted.error == NotFound {
              return None, order;
            }
            return Some(BucketFailed(deleted.error)), order;
          }
          ghost var rest := CancelEntries(deleted.value, faults, files[i + 1..]);
          ConcatAssociates(old(trace), done, [MarkerDeleted(e.key)]);
          ConcatAssociates(done, [MarkerDeleted(e.key)], rest.events);
          objects := deleted.value;
          trace := trace + [MarkerDeleted(e.key)];
          done := done + [MarkerDeleted(e.key)];
        }
        i := i + 1;
      }
      return None, order;
    }

    /** `getLocalProjects`. */
    method GetLocalProjects() returns (r: Result<seq<string>, Error>, ghost order: seq<Entry>)
      ensures r.Err? <==> List(objects, faults, StacksDir).Err?
      ensures r.Err? ==> r.error == Wrapped("error listing projects", BucketFailed(List(objects, faults, StacksDir).error))
      ensures r.Ok? ==> Enumerates(order, List(objects, faults, StacksDir).value) && r.value == ProjectNames(order)
    {
      var listing := ListBucket(StacksDir);
      if listing.Err? {
        return Err(Wrapped("error listing projects", BucketFailed(listing.error))), [];
      }
      var files := listing.value;
      order := files;
      var projects: seq<string> := [];
      for i := 0 to |files|
        invariant projects == ProjectNames(files[..i])
      {
        var file := files[i];
        assert files[..i + 1][..i] == files[..i];
        if !file.isDir {
          continue;
        }
        if !IsName(file.name) {
          continue;
        }
        projects := projects + [file.name];
      }
      assert files[..|files|] == files;
      return Ok(projects), order;
    }

    /** `Upgrade`: move every legacy stack into the project layout, then write the
        version-1 manifest and switch to the project store. `olds` are the legacy
        references in the order they were migrated. */
    method Upgrade() returns (err: Option<Error>, ghost olds: seq<StackReference>)
      modifies this`objects, this`trace, this`store
      ensures List(old(objects), faults, StacksDir).Err? ==>
        && objects == old(objects) && trace == old(trace)
        && err == Some(Wrapped(UpgradeListingContext, BucketFailed(List(old(objects), faults, StacksDir).error)))
      ensures List(old(objects), faults, StacksDir).Ok? ==>
        && (exists order :: Enumerates(order, List(old(objects), faults, StacksDir).value) && olds == LegacyRefs(order))
        && var s := UpgradeSpec(old(objects), faults, lockID, currentProject, olds);
           objects == s.objects && trace == old(trace) + s.events && err == s.err
      ensures store == if err.None? then ProjectStore else old(store)
    {
      var listing := ListBucket(StacksDir);
      if listing.Err? {
        return Some(Wrapped(UpgradeListingContext, BucketFailed(listing.error))), [];
      }
      var refs := LegacyRefs(listing.value);
      olds := refs;
      assert Enumerates(listing.value, List(old(objects), faults, StacksDir).value);
      ghost var mig := MigrateAll(old(objects), faults, lockID, currentProject, refs);
      err := MigrateStacks(refs);
      if err.Some? {
        return;
      }
      var written := Write(objects, faults, ManifestKey, Manifest(1));
      if written.Err? {
        return Some(Wrapped(ManifestWriteContext, BucketFailed(written.error))), olds;
      }
      objects := written.value;
      trace := trace + [ManifestWritten];
      ConcatAssociates(old(trace), mig.events, [ManifestWritten]);
      store := ProjectStore;
      return None, olds;
    }

    /** `Upgrade`'s loop: migrate the references in order, stopping at the first error. */
    method MigrateStacks(refs: seq<StackReference>) returns (err: Option<Error>)
      modifies this`objects, this`trace
      ensures var s := MigrateAll(old(objects), faults, lockID, currentProject, refs);
        objects == s.objects && trace == old(trace) + s.events && err == s.err
    {
      ghost var m0 := objects;
      ghost var t0 := trace;
      for i := 0 to |refs|
        invariant var mig := MigrateAll(m0, faults, lockID, currentProject, refs[..i]);
          mig.err.None? && objects == mig.objects && trace == t0 + mig.events
      {
        ghost var prev := MigrateAll(m0, faults, lockID, currentProject, refs[..i]);
        ghost var before := objects;
        ghost var one := MigrateOne(before, faults, lockID, currentProject, refs[i]);
        MigrateAllExtends(m0, faults, lockID, currentProject, refs, i);
        err := MigrateStack(refs[i]);
        ghost var next := Step(one.objects, prev.events + one.events, one.err);
        ConcatAssociates(t0, prev.events, one.events);
        assert objects == next.objects && err == next.err;
        if err.Some? {
          MigrateAllStopsAtFirstError(m0, faults, lockID, currentProject, refs, i + 1);
          return;
        }
      }
      assert refs[..|refs|] == refs;
      err := None;
    }

    /** One pass of `Upgrade`'s loop. */
    method MigrateStack(legacy: StackReference) returns (err: Option<Error>)
      modifies this`objects, this`trace
      ensures var s := MigrateOne(old(objects), faults, lockID, currentProject, legacy);
        objects == s.objects && trace == old(trace) + s.events && err == s.err
    {
      ghost var t0 := trace;
      var chk := GetStack(legacy);
      if chk.Err? {
        return Some(chk.error);
      }
      ghost var rest := MigrateLoaded(objects, faults, lockID, currentProject, legacy, chk.value);
      err := MigrateCheckpoint(legacy, chk.value);
      ConcatAssociates(t0, [Loaded(StackPath(legacy))], rest.events);
    }

    /** The pass once the checkpoint is loaded: infer the project, then rename. */
    method MigrateCheckpoint(legacy: StackReference, chk: Checkpoint) returns (err: Option<Error>)
      modifies this`objects, this`trace
      ensures var s := MigrateLoaded(old(objects), faults, lockID, currentProject, legacy, chk);
        objects == s.objects && trace == old(trace) + s.events && err == s.err
    {
      var project := InferProject(chk);
      if project == "" {
        return Some(NoProjectFound(String(legacy, currentProject)));
      }
      err := MigrateInto(legacy, UpgradedReference(legacy, project));
    }

    /** Rename a legacy stack to its project-layout reference, naming both in the error. */
    method MigrateInto(legacy: StackReference, target: StackReference) returns (err: Option<Error>)
      modifies this`objects, this`trace
      ensures var s := RenameStackSpec(old(objects), faults, lockID, currentProject, legacy, target);
        && objects == s.objects && trace == old(trace) + s.events
        && err == if s.err.Some? then Some(Wrapped(UpgradeStackContext(legacy, target, currentProject), s.err.value)) else None
    {
      err := RenameStack(legacy, target);
      if err.Some? {
        err := Some(Wrapped(UpgradeStackContext(legacy, target, currentProject), err.value));
      }
    }
  }
}
