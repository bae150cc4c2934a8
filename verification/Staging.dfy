/** ModManager: staging a generation directory, and discarding one that no record names. */
module Staging {
  import opened Prelude
  import opened Packages
  import opened Records
  import opened Journal
  import opened Machine
  import opened Invariant
  import opened Disks
  import opened Promotions
  import opened Applies
  import opened Locks

  /** What Stage demands of the lock, the extracted files and the template. */
  ghost predicate Stageable(generations: map<string, Generation>, id: string, lock: PackageLock,
                            overlay: map<string, string>,
                            template: Option<string>) {
    ValidLock(lock) && id !in generations && template.Some? && ManagedPaths(overlay) && HasRuntimeFiles(overlay)
  }

  function StagedContent(id: string, lock: PackageLock, overlay: map<string, string>, template: string): Generation {
    Generation(ManagedManifest(id, lock.digest, overlay), lock, overlay, template)
  }

  lemma StagePermitted(m: Machine, id: string, lock: PackageLock, overlay: map<string, string>, template: string)
    requires IsName(id) && id !in m.generations && ManagedPaths(overlay) && lock.digest == PackageLockDigest(lock)
    ensures Enabled(m, Event.Stage(id, StagedContent(id, lock, overlay, template)))
  {
    hide IsManagedRuntimePath, Canonical;
  }

  /** Nothing refers to a directory that does not exist yet. */
  lemma FreshDirectory(m: Machine, id: string)
    requires Ledger(m) && IsName(id) && id !in m.generations
    ensures NeverApplied(m, id)
  {
    hide CleanupOk, LockOk, ProcOk, GenerationsOk, ValidTransactionState, JournalOk, ConfigTombstoneFree,
      GenerationPrefix, IsName;
  }

  lemma StagedNeverApplied(m: Machine, w: Machine, id: string)
    requires NeverApplied(m, id) && w.state == m.state && w.artifacts == m.artifacts
    ensures NeverApplied(w, id)
  {
    hide IsName, GenerationPrefix;
  }

  /** validateManagedFiles, one file after the other. */
  method ValidateManagedFiles(files: map<string, string>) returns (ok: bool)
    ensures ok <==> ManagedPaths(files)
  {
    hide IsRelativePath, IsManagedRuntimePath;
    var rest := files.Keys;
    while rest != {}
      invariant rest <= files.Keys
      invariant forall p :: p in files.Keys - rest ==> IsRelativePath(p) && IsManagedRuntimePath(p)
      decreases |rest|
    {
      var p :| p in rest;
      if !IsRelativePath(p) || !IsManagedRuntimePath(p) {
        return false;
      }
      rest := rest - {p};
    }
    return true;
  }

  /**
   * Stage, under an identifier made from the digest and the time. A success leaves a new directory
   * that matches the returned value and that no record or artifact knows; nothing else changes.
   */
  method Stage(d: Disk, id: string, lock: PackageLock, overlay: map<string, string>, template: Option<string>)
      returns (ok: bool, staged: StagedGeneration)
    requires d.Valid() && IsName(id)
    modifies d
    ensures d.Valid() && d.faults <= old(d.faults) && d.edits <= old(d.edits)
    ensures d.M() == old(d.M()).(live := d.live, generations := d.generations)
    ensures d.edits == old(d.edits) && d.game.None? ==> d.live == old(d.live)
    ensures staged ==
      StagedGeneration(GenerationRecord(id, lock.digest, CandidateStatus), ManagedManifest(id, lock.digest, overlay),
        lock)
    ensures d.generations == old(d.generations)
      || (id !in old(d.generations) && template.Some?
          && d.generations == old(d.generations)[id := StagedContent(id, lock, overlay, template.value)])
    ensures ok ==>
      && id in d.generations && template.Some?
      && d.generations[id] ==
           Generation(ManagedManifest(id, lock.digest, overlay), lock, overlay, template.value)
    ensures ok ==> StagedMatches(d.generations, staged) && NeverApplied(d.M(), id) && ValidLock(lock)
    ensures d.faults == old(d.faults) ==> (ok <==> Stageable(old(d.generations), id, lock, overlay, template))
  {
    hide Grounded, ValidLock, ManagedPaths, HasRuntimeFiles, Ledger, Enabled, IsName, NeverApplied, PackageLockDigest;
    LedgerNow(d);
    staged := StagedGeneration(GenerationRecord(id, lock.digest, CandidateStatus),
      ManagedManifest(id, lock.digest, overlay), lock);
    ok := ValidateManagedPackageLock(lock);
    if !ok {
      return;
    }
    if id in d.generations {
      return false, staged;
    }
    FreshDirectory(d.M(), id);
    if template.None? {
      return false, staged;
    }
    ok := ValidateManagedFiles(overlay);
    if !ok || !HasRuntimeFiles(overlay) {
      return false, staged;
    }
    LockIsSealed(lock);
    ok := Persist(d, id, lock, overlay, template.value);
  }

  lemma LockIsSealed(lock: PackageLock)
    requires ValidLock(lock)
    ensures lock.digest == PackageLockDigest(lock)
  {
    hide ManagedRoots, AllValid, AllKinds, DistinctKinds, PackageLockDigest, LockedGraph;
  }

  /** The directory with its files, manifest, lock and template. */
  method Persist(d: Disk, id: string, lock: PackageLock, overlay: map<string, string>, template: string)
      returns (ok: bool)
    requires d.Valid() && IsName(id) && id !in d.generations && NeverApplied(d.M(), id)
    requires ManagedPaths(overlay) && HasRuntimeFiles(overlay) && lock.digest == PackageLockDigest(lock)
    modifies d
    ensures d.Valid() && d.faults <= old(d.faults) && d.edits <= old(d.edits)
    ensures d.M() == old(d.M()).(live := d.live, generations := d.generations) && NeverApplied(d.M(), id)
    ensures d.edits == old(d.edits) && d.game.None? ==> d.live == old(d.live)
    ensures var g := StagedContent(id, lock, overlay, template);
      && (d.generations == old(d.generations) || d.generations == old(d.generations)[id := g])
      && (ok ==> d.generations == old(d.generations)[id := g])
    ensures !ok ==> d.faults < old(d.faults)
  {
    ghost var m := d.M();
    var g := StagedContent(id, lock, overlay, template);
    StagePermitted(m, id, lock, overlay, template);
    hide Grounded, Enabled, ManagedPaths, HasRuntimeFiles, IsName, PackageLockDigest, NeverApplied, StagedContent;
    var fault := d.NextFault();
    if fault.Before? {
      d.Environment();
      StagedNeverApplied(m, d.M(), id);
      return false;
    }
    d.Write(Event.Stage(id, g), d.M().(generations := d.generations[id := g]));
    d.Environment();
    StagedNeverApplied(m, d.M(), id);
    return fault.NoFault?;
  }

  // ---- Discard ----

  lemma DiscardPermitted(m: Machine, id: string)
    requires UnreferencedGeneration(m, id)
    ensures Enabled(m, Event.Discard(id)) && Undisturbed(m, Event.Discard(id))
    ensures Step(m, Event.Discard(id)) == WithoutGeneration(m, id)
  {
    hide UnreferencedGeneration, WithoutGeneration;
  }

  /** Discard, of an identifier of one path component: never a generation that a record names. */
  method Discard(d: Disk, staged: StagedGeneration) returns (ok: bool)
    requires d.Valid() && |Split(staged.record.id, '/')| == 1
    modifies d
    ensures d.Valid() && d.faults <= old(d.faults) && d.edits <= old(d.edits)
    ensures d.state == old(d.state) && d.lock == old(d.lock) && d.proc == old(d.proc) && d.game == old(d.game)
    ensures d.edits == old(d.edits) ==> d.live - {CONFIG_PATH} == old(d.live) - {CONFIG_PATH}
    ensures var removed := old(d.generations) - {staged.record.id};
      && (d.generations == old(d.generations) || d.generations == removed) && (ok ==> d.generations == removed)
    ensures IsReferenced(old(d.state), staged.record.id) ==> !ok && d.generations == old(d.generations)
    ensures d.faults == old(d.faults) ==>
      (ok <==> IsRelativePath(staged.record.id) && !IsReferenced(old(d.state), staged.record.id))
  {
    hide Grounded, Enabled, Undisturbed, Step, Split;
    var id := staged.record.id;
    if id == "" || !IsRelativePath(id) {
      return false;
    }
    var s;
    ok, s := d.Load();
    if !ok || IsReferenced(s, id) {
      return false;
    }
    DiscardPermitted(d.M(), id);
    hide IsRelativePath;
    ok := d.RemoveTree(id, Event.Discard(id));
  }
}
