/** ModManager: committing, reconciling, rolling back and discarding generations. */
module Promotions {
  import opened Prelude
  import opened Packages
  import opened Records
  import opened Journal
  import opened EntryRecovery
  import opened Machine
  import opened Invariant
  import opened Convergence
  import opened Disks
  import opened Stores

  /** A generation as Stage returned it; the directory is determined by the record. */
  datatype StagedGeneration = StagedGeneration(record: GenerationRecord, manifest: ManagedManifest, lock: PackageLock)

  datatype PromotionCommitOutcome = PromotionNotCommitted | PromotionCommitted | PromotionRecoveryRequired

  // ---- Staged generations ----

  const REQUIRED_RUNTIME_FILES := [
    ".doorstop_version",
    "doorstop_config.ini",
    "winhttp.dll",
    "BepInEx/plugins/saltydk-managed/VampireCommandFramework.dll",
    "BepInEx/plugins/saltydk-managed/KindredCommands.dll",
    "BepInEx/plugins/saltydk-managed/NetTopologySuite.dll",
    "BepInEx/plugins/saltydk-managed/HookDOTS.API.dll",
    "BepInEx/plugins/saltydk-managed/Satisvampory.dll"]

  /** requireManagedRuntimeFiles. */
  predicate HasRuntimeFiles(files: map<string, string>) {
    && (forall i :: 0 <= i < |REQUIRED_RUNTIME_FILES| ==> REQUIRED_RUNTIME_FILES[i] in files)
    && (exists p :: p in files && "dotnet/" <= p)
    && (exists p :: p in files && "BepInEx/core/" <= p)
  }

  /** A complete runtime: the loader, its runtime and core, and the five managed plugins. */
  lemma RuntimeFilesMean(files: map<string, string>)
    ensures HasRuntimeFiles(files) <==>
      && ".doorstop_version" in files && "doorstop_config.ini" in files && "winhttp.dll" in files
      && "BepInEx/plugins/saltydk-managed/VampireCommandFramework.dll" in files
      && "BepInEx/plugins/saltydk-managed/KindredCommands.dll" in files
      && "BepInEx/plugins/saltydk-managed/NetTopologySuite.dll" in files
      && "BepInEx/plugins/saltydk-managed/HookDOTS.API.dll" in files
      && "BepInEx/plugins/saltydk-managed/Satisvampory.dll" in files
      && (exists rest :: "dotnet/" + rest in files) && (exists rest :: "BepInEx/core/" + rest in files)
  {
    SomeBelow(files, "dotnet/");
    SomeBelow(files, "BepInEx/core/");
    var all := REQUIRED_RUNTIME_FILES;
    if HasRuntimeFiles(files) {
      assert all[0] in files && all[1] in files && all[2] in files && all[3] in files;
      assert all[4] in files && all[5] in files && all[6] in files && all[7] in files;
    }
  }

  lemma SomeBelow(files: map<string, string>, dir: string)
    ensures (exists p :: p in files && dir <= p) <==> exists rest :: dir + rest in files
  {
    if p :| p in files && dir <= p {
      assert p == dir + p[|dir|..];
    }
  }

  /** The staged value is the persisted generation, which is complete. */
  predicate StagedMatches(generations: map<string, Generation>, staged: StagedGeneration) {
    staged.record.id in generations &&
    var g := generations[staged.record.id];
    && g.manifest == staged.manifest && g.lock == staged.lock
    && g.lock.digest == staged.record.lockDigest
    && HasRuntimeFiles(g.manifest.files)
  }

  lemma GenerationConsistent(d: Disk, id: string)
    requires d.Valid() && id in d.generations
    ensures ConsistentGeneration(id, d.generations[id]) && IsName(id)
  {
    SoundNow(d.world, d.outside, d.states, d.log, d.M());
    hide Grounded, Inv, JournalPart, IsName, RecordsOk, CleanupOk, LockOk, ProcOk;
  }

  /** openAndValidateStaged. */
  method OpenAndValidateStaged(d: Disk, staged: StagedGeneration) returns (ok: bool)
    requires d.Valid()
    modifies d`faults
    ensures d.Valid() && d.M() == old(d.M()) && d.faults <= old(d.faults) && d.edits == old(d.edits)
    ensures ok ==> StagedMatches(d.generations, staged)
    ensures !ok && StagedMatches(d.generations, staged) ==> d.faults < old(d.faults)
  {
    var id := staged.record.id;
    if id in d.generations {
      GenerationConsistent(d, id);
    }
    hide Grounded, HasRuntimeFiles, IsManagedRuntimePath, Split;
    if !IsRelativePath(id) || id !in d.generations {
      return false;
    }
    var fault := d.NextFault();
    if !fault.NoFault? {
      return false;
    }
    var manifest, lock := d.generations[id].manifest, d.generations[id].lock;
    if !ValidManifest(manifest) || !HasRuntimeFiles(manifest.files) {
      return false;
    }
    if manifest.generationID != id || manifest.lockDigest != staged.record.lockDigest
       || lock.digest != staged.record.lockDigest || lock.digest != PackageLockDigest(lock) {
      return false;
    }
    return manifest == staged.manifest && lock == staged.lock;
  }

  // ---- Removing a committed transaction's artifacts ----

  /** The artifacts of the first `index` entries are gone and nothing else is. */
  ghost predicate ClearedUpTo(m0: Machine, m: Machine, index: nat)
    requires index <= |Entries(m0)|
  {
    && m == m0.(live := m.live, artifacts := m.artifacts)
    && (forall i :: 0 <= i < index ==>
          Entries(m0)[i].quarantinePath !in m.artifacts && Entries(m0)[i].tombstonePath !in m.artifacts)
    && (forall a :: !IsArtifactOf(Entries(m0)[..index], a) ==> Get(m.artifacts, a) == Get(m0.artifacts, a))
  }

  /** One artifact is dropped, or nothing happened. */
  ghost predicate DroppedOne(before: Machine, after: Machine, place: string) {
    && after == before.(live := after.live, artifacts := after.artifacts)
    && (after.artifacts == before.artifacts || after.artifacts == before.artifacts - {place})
  }

  lemma CommitPermitted(m: Machine, index: nat, e: JournalEntry, tombstone: bool)
    requires Committing(m) && index < |Entries(m)| && Entries(m)[index] == e && ValidHashes(e)
    requires var v :=
      ViewAt(m, e); if tombstone then Holds(v.tombstone, e.tombstone) else Holds(v.quarantine, e.original)
    ensures Enabled(m, MoveFile(index, if tombstone then DropTombstone else DropQuarantine))
    ensures Undisturbed(m, MoveFile(index, if tombstone then DropTombstone else DropQuarantine))
  {
  }

  lemma DroppedIs(m: Machine, index: nat, e: JournalEntry, tombstone: bool, after: Machine, quiet: bool)
    requires index < |Entries(m)| && Entries(m)[index] == e && e.quarantinePath != e.tombstonePath
    requires var ev := MoveFile(index, if tombstone then DropTombstone else DropQuarantine);
      Drifted(m, after, quiet) || Drifted(Step(m, ev), after, quiet)
    ensures DroppedOne(m, after, if tombstone then e.tombstonePath else e.quarantinePath)
    ensures quiet ==> after.live - {CONFIG_PATH} == m.live - {CONFIG_PATH}
    ensures Drifted(Step(m, MoveFile(index, if tombstone then DropTombstone else DropQuarantine)), after, quiet) ==>
      after.artifacts == m.artifacts - {if tombstone then e.tombstonePath else e.quarantinePath}
  {
    RemoveIs(m, e, index, tombstone);
    hide Step;
  }

  /** One artifact that was found: removeJournalArtifact, or a sync of the place where there was none. */
  method DropArtifact(d: Disk, e: JournalEntry, ghost index: nat, tombstone: bool, found: Option<string>)
      returns (ok: bool)
    requires d.Valid() && Committing(d.M()) && index < |Entries(d.M())| && Entries(d.M())[index] == e
    requires found == Get(d.artifacts, if tombstone then e.tombstonePath else e.quarantinePath)
    requires found.Some? ==> Holds(found, if tombstone then e.tombstone else e.original)
    modifies d
    ensures d.Valid() && d.faults <= old(d.faults) && d.edits <= old(d.edits)
    ensures DroppedOne(old(d.M()), d.M(), if tombstone then e.tombstonePath else e.quarantinePath)
    ensures d.edits == old(d.edits) ==> d.live - {CONFIG_PATH} == old(d.live) - {CONFIG_PATH}
    ensures ok ==> (if tombstone then e.tombstonePath else e.quarantinePath) !in d.artifacts
    ensures !ok ==> d.faults < old(d.faults)
  {
    DiskSeparates(d, index);
    hide Grounded, Enabled, Undisturbed;
    ghost var m := d.M();
    if found.None? {
      ok := d.Sync();
    } else {
      CommitPermitted(m, index, e, tombstone);
      ok := d.RemoveArtifact(e, index, tombstone, found.value);
      DroppedIs(m, index, e, tombstone, d.M(), d.edits == old(d.edits));
    }
  }

  lemma NoneCleared(m0: Machine)
    ensures ClearedUpTo(m0, m0, 0)
  {
  }

  lemma OneMoreCleared(m0: Machine, m: Machine, m1: Machine, w: Machine, index: nat)
    requires index < |Entries(m0)| && ClearedUpTo(m0, m, index)
    requires var e := Entries(m0)[index];
      && DroppedOne(m, m1, e.quarantinePath) && DroppedOne(m1, w, e.tombstonePath)
      && e.quarantinePath !in w.artifacts && e.tombstonePath !in w.artifacts
    ensures ClearedUpTo(m0, w, index + 1)
  {
    var all := Entries(m0);
    forall a | !IsArtifactOf(all[..index + 1], a)
      ensures Get(w.artifacts, a) == Get(m0.artifacts, a)
    {
      assert all[..index + 1][index] == all[index];
      ArtifactOfMore(all, index, a);
    }
  }

  lemma ArtifactOfMore(all: seq<JournalEntry>, index: nat, a: string)
    requires index < |all|
    ensures IsArtifactOf(all[..index], a) ==> IsArtifactOf(all[..index + 1], a)
  {
    if IsArtifactOf(all[..index], a) {
      var i :| 0 <= i < index && (a == all[..index][i].quarantinePath || a == all[..index][i].tombstonePath);
      assert all[..index + 1][i] == all[..index][i];
    }
  }

  /** Artifacts not reached yet are as they were found. */
  lemma NotYetCleared(m0: Machine, m: Machine, index: nat)
    requires index < |Entries(m0)| && ClearedUpTo(m0, m, index) && Separated(Entries(m0))
    ensures Get(m.artifacts, Entries(m0)[index].quarantinePath) == Get(m0.artifacts, Entries(m0)[index].quarantinePath)
    ensures Get(m.artifacts, Entries(m0)[index].tombstonePath) == Get(m0.artifacts, Entries(m0)[index].tombstonePath)
  {
    var all := Entries(m0);
    assert !IsArtifactOf(all[..index], all[index].quarantinePath);
    assert !IsArtifactOf(all[..index], all[index].tombstonePath);
  }

  lemma DropKeepsOther(m: Machine, m1: Machine, place: string, other: string)
    requires DroppedOne(m, m1, place) && place != other
    ensures Get(m1.artifacts, other) == Get(m.artifacts, other)
  {
  }

  /** commitTransactionArtifacts: inspects everything first, then removes what was found. */
  method CommitTransactionArtifacts(d: Disk) returns (ok: bool)
    requires d.Valid() && Committing(d.M()) && d.state.transaction.Some?
    modifies d
    ensures d.Valid() && d.faults <= old(d.faults) && d.edits <= old(d.edits)
    ensures d.M() == old(d.M()).(live := d.live, artifacts := d.artifacts)
    ensures d.edits == old(d.edits) ==> d.live - {CONFIG_PATH} == old(d.live) - {CONFIG_PATH}
    ensures ok ==> ClearedUpTo(old(d.M()), d.M(), |Entries(old(d.M()))|)
    ensures d.artifacts.Keys <= old(d.artifacts).Keys
    ensures d.faults == old(d.faults) ==> (ok <==> ArtifactsMatch(old(d.M())))
  {
    LedgerJournal(d);
    hide Grounded, ClearedUpTo, Separated, ArtifactsMatch, Found;
    var found;
    ok, found := TransactionArtifacts(d);
    if !ok {
      return false;
    }
    ok := RemoveFound(d, found);
  }

  lemma FoundAt(m: Machine, found: seq<(Option<string>, Option<string>)>, index: nat)
    requires Found(m, found)
    ensures |found| == |Entries(m)|
    ensures index < |found| ==>
      && found[index].0 == Get(m.artifacts, Entries(m)[index].quarantinePath)
      && found[index].1 == Get(m.artifacts, Entries(m)[index].tombstonePath)
  {
  }

  /** The loop over what was found. */
  method RemoveFound(d: Disk, found: seq<(Option<string>, Option<string>)>) returns (ok: bool)
    requires d.Valid() && Committing(d.M()) && d.state.transaction.Some?
    requires Separated(Entries(d.M())) && ArtifactsMatch(d.M()) && Found(d.M(), found)
    modifies d
    ensures d.Valid() && d.faults <= old(d.faults) && d.edits <= old(d.edits)
    ensures d.M() == old(d.M()).(live := d.live, artifacts := d.artifacts)
    ensures d.edits == old(d.edits) ==> d.live - {CONFIG_PATH} == old(d.live) - {CONFIG_PATH}
    ensures ok ==> ClearedUpTo(old(d.M()), d.M(), |Entries(old(d.M()))|)
    ensures d.artifacts.Keys <= old(d.artifacts).Keys
    ensures !ok ==> d.faults < old(d.faults)
  {
    hide Grounded, ClearedUpTo, Separated, ArtifactsMatch, Found;
    ghost var m0 := d.M();
    NoneCleared(m0);
    var all := AllEntries(d.state.transaction.value);
    FoundAt(m0, found, 0);
    var index := 0;
    while index < |all|
      invariant 0 <= index <= |all|
      invariant d.Valid() && d.faults <= old(d.faults) && d.edits <= old(d.edits)
      invariant d.M() == m0.(live := d.live, artifacts := d.artifacts)
      invariant d.edits == old(d.edits) ==> d.live - {CONFIG_PATH} == old(d.live) - {CONFIG_PATH}
      invariant ClearedUpTo(m0, d.M(), index) && d.artifacts.Keys <= m0.artifacts.Keys
    {
      FoundAt(m0, found, index);
      ok := DropBoth(d, m0, all[index], index, found[index]);
      if !ok {
        return false;
      }
      index := index + 1;
    }
    return true;
  }

  /** Both artifacts of one entry. */
  method DropBoth(d: Disk, ghost m0: Machine, e: JournalEntry, ghost index: nat,
                  found: (Option<string>, Option<string>))
      returns (ok: bool)
    requires d.Valid() && Committing(m0) && d.M() == m0.(live := d.live, artifacts := d.artifacts)
    requires Separated(Entries(m0)) && index < |Entries(m0)| && Entries(m0)[index] == e
    requires ClearedUpTo(m0, d.M(), index) && ArtifactsMatch(m0)
    requires found.0 == Get(m0.artifacts, e.quarantinePath) && found.1 == Get(m0.artifacts, e.tombstonePath)
    modifies d
    ensures d.Valid() && d.faults <= old(d.faults) && d.edits <= old(d.edits)
    ensures d.M() == m0.(live := d.live, artifacts := d.artifacts)
    ensures d.edits == old(d.edits) ==> d.live - {CONFIG_PATH} == old(d.live) - {CONFIG_PATH}
    ensures ok ==> ClearedUpTo(m0, d.M(), index + 1)
    ensures d.artifacts.Keys <= old(d.artifacts).Keys
    ensures !ok ==> d.faults < old(d.faults)
  {
    ghost var m := d.M();
    NotYetCleared(m0, m, index);
    assert ArtifactsMatchAt(m0, e);
    hide Grounded, ClearedUpTo, Separated;
    ok := DropArtifact(d, e, index, false, found.0);
    ghost var m1 := d.M();
    if ok {
      DiskSeparates(d, index);
      DropKeepsOther(m, m1, e.quarantinePath, e.tombstonePath);
      ok := DropArtifact(d, e, index, true, found.1);
      if ok {
        OneMoreCleared(m0, m, m1, d.M(), index);
      }
    }
  }

  // ---- Reconciling a durable intent ----

  lemma LedgerNow(d: Disk)
    requires d.Valid()
    ensures Ledger(d.M())
  {
    SoundNow(d.world, d.outside, d.states, d.log, d.M());
    hide Grounded, Inv, Ledger;
  }

  /**
   * What a durable intent rests on: the promoted generation, its lock, and an applied candidate if
   * it is not yet active.
   */
  lemma IntentIsSound(d: Disk)
    requires d.Valid() && d.state.promotion.Some?
    ensures d.proc.Recovering?
    ensures var p := d.state.promotion.value;
      && p.generationID in d.generations && p.generationID != "" && p.lock == d.generations[p.generationID].lock
      && p.lock.digest == PackageLockDigest(p.lock)
      && if d.state.candidate.Some?
         then && d.state.candidate.value.id == p.generationID && d.state.candidate.value.lockDigest == p.lock.digest
              && d.state.transaction.Some? && d.state.transaction.value.generationID == p.generationID
              && d.state.transaction.value.phase.AppliedPhase?
         else && d.state.transaction.None?
              && d.state.active.Some? && d.state.active.value.id == p.generationID
              && d.state.active.value.lockDigest == p.lock.digest && d.lock == Some(p.lock)
  {
    LedgerNow(d);
    hide Grounded, ArtifactsOk, JournalOf, CleanupOk, ConfigTombstoneFree, HasRuntimeFiles, Separated, ValidHashes;
    GenerationConsistent(d, d.state.promotion.value.generationID);
    hide PackageLockDigest, ValidManifest, IsManagedRuntimePath;
  }

  lemma CleanupIsUnreferenced(d: Disk)
    requires d.Valid()
    ensures d.state.promotion.None? ==> d.state.pendingCleanup == []
    ensures d.state.promotion.Some? && d.state.candidate.None? ==>
      forall i :: 0 <= i < |d.state.pendingCleanup| ==> UnreferencedGeneration(d.M(), d.state.pendingCleanup[i])
  {
    LedgerNow(d);
    hide Grounded, GenerationsOk, RecordsOk, LockOk, ProcOk, JournalPart, UnreferencedGeneration;
  }

  /** The candidate branch: lock, artifacts, then the switch of records. */
  method SwitchCandidate(d: Disk) returns (ok: bool)
    requires d.Valid() && d.state.promotion.Some? && d.state.candidate.Some? && d.state.transaction.Some? &&
      d.proc.Recovering?
    modifies d
    ensures d.Valid() && d.faults <= old(d.faults) && d.edits <= old(d.edits)
    ensures d.edits == old(d.edits) ==> d.live - {CONFIG_PATH} == old(d.live) - {CONFIG_PATH}
    ensures d.generations == old(d.generations) && d.proc.Recovering? && d.backups == old(d.backups) &&
      d.game == old(d.game)
    ensures d.state == old(d.state) || d.state == SwitchedState(old(d.state))
    ensures d.lock == old(d.lock) || d.lock == Some(old(d.state).promotion.value.lock)
    ensures d.artifacts.Keys <= old(d.artifacts).Keys
    ensures ok ==> d.state == SwitchedState(old(d.state)) && d.lock == Some(old(d.state).promotion.value.lock)
    ensures ok ==> forall i :: 0 <= i < |Entries(old(d.M()))| ==>
      Entries(old(d.M()))[i].quarantinePath !in d.artifacts && Entries(old(d.M()))[i].tombstonePath !in d.artifacts
    ensures d.faults == old(d.faults) ==> (ok <==> ArtifactsMatch(old(d.M())))
  {
    hide Grounded, ClearedUpTo, ArtifactsMatch;
    ghost var m0 := d.M();
    ok := d.SaveLock(d.state.promotion.value.lock);
    if !ok {
      return false;
    }
    ghost var m1 := d.M();
    SameMatches(m0, m1);
    ok := CommitTransactionArtifacts(d);
    if !ok {
      return false;
    }
    SwitchPermitted(m1, d.M());
    hide Enabled, Undisturbed, SwitchedState;
    ok := d.SaveState(SwitchedState(d.state), d.proc, d.backups, Switch);
  }

  lemma SameMatches(m: Machine, w: Machine)
    requires w.state == m.state && w.artifacts == m.artifacts
    ensures ArtifactsMatch(m) <==> ArtifactsMatch(w)
    ensures Entries(m) == Entries(w)
  {
    assert forall i :: 0 <= i < |Entries(m)| ==>
      (ArtifactsMatchAt(m, Entries(m)[i]) <==> ArtifactsMatchAt(w, Entries(w)[i]));
  }

  lemma SwitchPermitted(m: Machine, w: Machine)
    requires Committing(m) && m.state.candidate.Some? && m.state.transaction.Some? && ClearedUpTo(m, w, |Entries(m)|)
    ensures Enabled(w, Switch) && Undisturbed(w, Switch)
    ensures w == m.(live := w.live, artifacts := w.artifacts)
    ensures Step(w, Switch) == w.(state := SwitchedState(w.state))
    ensures forall i :: 0 <= i < |Entries(m)| ==>
      Entries(m)[i].quarantinePath !in w.artifacts && Entries(m)[i].tombstonePath !in w.artifacts
  {
    hide SwitchedState, IsArtifactOf;
  }

  /** The other branch: the switch is durable; the lock is written again if it cannot be read back. */
  method RestoreLock(d: Disk) returns (ok: bool)
    requires d.Valid() && d.state.promotion.Some? && d.lock == Some(d.state.promotion.value.lock)
    modifies d
    ensures d.Valid() && d.faults <= old(d.faults) && d.edits <= old(d.edits)
    ensures d.M() == old(d.M()).(live := d.live)
    ensures d.edits == old(d.edits) ==> d.live - {CONFIG_PATH} == old(d.live) - {CONFIG_PATH}
    ensures !ok ==> d.faults < old(d.faults)
  {
    hide Grounded;
    var promoted := d.state.promotion.value.lock;
    var fault := d.NextFault();
    if !fault.NoFault? || d.lock != Some(promoted) {
      ok := d.SaveLock(promoted);
      return ok;
    }
    return true;
  }

  function Surviving(generations: map<string, Generation>, removed: seq<string>): map<string, Generation> {
    map id | id in generations && id !in removed :: generations[id]
  }

  lemma RemovalPermitted(m: Machine)
    requires m.state.promotion.Some? && m.state.candidate.None? && m.state.pendingCleanup != []
    requires UnreferencedGeneration(m, m.state.pendingCleanup[0])
    ensures Enabled(m, RemoveGeneration) && Undisturbed(m, RemoveGeneration)
    ensures Step(m, RemoveGeneration) == WithoutGeneration(m, m.state.pendingCleanup[0])
  {
    hide UnreferencedGeneration, WithoutGeneration;
  }

  lemma PopPermitted(m: Machine)
    requires m.state.promotion.Some? && m.state.candidate.None? && m.state.pendingCleanup != []
    requires m.state.pendingCleanup[0] !in m.generations
    ensures Enabled(m, PopCleanup) && Undisturbed(m, PopCleanup)
    ensures Step(m, PopCleanup) == m.(state := m.state.(pendingCleanup := m.state.pendingCleanup[1..]))
  {
  }

  /** One generation of the cleanup list: its directory first, then its name. */
  method CleanHead(d: Disk) returns (ok: bool)
    requires d.Valid() && d.state.promotion.Some? && d.state.candidate.None? && d.state.pendingCleanup != []
    modifies d
    ensures d.Valid() && d.faults <= old(d.faults) && d.edits <= old(d.edits)
    ensures d.edits == old(d.edits) ==> d.live - {CONFIG_PATH} == old(d.live) - {CONFIG_PATH}
    ensures d.lock == old(d.lock) && d.proc == old(d.proc) && d.backups == old(d.backups) && d.game == old(d.game)
    ensures var rest := old(d.state).(pendingCleanup := old(d.state).pendingCleanup[1..]);
      && (d.state == old(d.state) || d.state == rest) && (ok ==> d.state == rest)
    ensures var removed := old(d.generations) - {old(d.state).pendingCleanup[0]};
      && (d.generations == old(d.generations) || d.generations == removed) && (ok ==> d.generations == removed)
    ensures d.artifacts.Keys <= old(d.artifacts).Keys
    ensures !ok ==> d.faults < old(d.faults)
  {
    CleanupIsUnreferenced(d);
    var id := d.state.pendingCleanup[0];
    RemovalPermitted(d.M());
    hide Grounded, Enabled, Undisturbed;
    if IsReferenced(d.state, id) {
      assert false;
    }
    ok := d.RemoveTree(id, RemoveGeneration);
    if !ok {
      return false;
    }
    PopPermitted(d.M());
    hide Step;
    ok := d.SaveState(d.state.(pendingCleanup := d.state.pendingCleanup[1..]), d.proc, d.backups, PopCleanup);
  }

  /** The whole cleanup list. */
  method CleanUp(d: Disk) returns (ok: bool)
    requires d.Valid() && (d.state.promotion.Some? ==> d.state.candidate.None?)
    modifies d
    ensures d.Valid() && d.faults <= old(d.faults) && d.edits <= old(d.edits)
    ensures d.edits == old(d.edits) ==> d.live - {CONFIG_PATH} == old(d.live) - {CONFIG_PATH}
    ensures d.lock == old(d.lock) && d.proc == old(d.proc) && d.backups == old(d.backups) && d.game == old(d.game)
    ensures d.state == old(d.state).(pendingCleanup := d.state.pendingCleanup)
    ensures d.generations.Keys <= old(d.generations).Keys && d.artifacts.Keys <= old(d.artifacts).Keys
    ensures ok ==>
      d.state.pendingCleanup == [] && d.generations == Surviving(old(d.generations), old(d.state).pendingCleanup)
    ensures old(d.state).promotion.None? ==> ok && d.M() == old(d.M()) && d.Around() == old(d.Around())
    ensures !ok ==> d.faults < old(d.faults)
  {
    CleanupIsUnreferenced(d);
    hide Grounded, UnreferencedGeneration;
    ghost var all := d.state.pendingCleanup;
    ghost var done := 0;
    assert d.generations == Surviving(d.generations, all[..0]);
    while d.state.pendingCleanup != []
      invariant done <= |all| && d.state == old(d.state).(pendingCleanup := all[done..])
      invariant d.generations == Surviving(old(d.generations), all[..done])
      invariant d.Valid() && d.faults <= old(d.faults) && d.edits <= old(d.edits)
      invariant d.edits == old(d.edits) ==> d.live - {CONFIG_PATH} == old(d.live) - {CONFIG_PATH}
      invariant d.lock == old(d.lock) && d.proc == old(d.proc) && d.backups == old(d.backups) && d.game == old(d.game)
      invariant d.artifacts.Keys <= old(d.artifacts).Keys
      invariant old(d.state).promotion.None? ==> d.M() == old(d.M()) && d.Around() == old(d.Around())
      decreases |d.state.pendingCleanup|
    {
      ok := CleanHead(d);
      if !ok {
        return false;
      }
      assert all[done..][1..] == all[done + 1..] && all[..done + 1] == all[..done] + [all[done]];
      done := done + 1;
    }
    assert all[..done] == all;
    return true;
  }

  /** The last save: the intent is cleared. */
  method ClearPromotion(d: Disk) returns (ok: bool)
    requires d.Valid() && d.state.promotion.Some? && d.state.candidate.None? && d.state.transaction.None? &&
      d.state.pendingCleanup == []
    modifies d
    ensures d.Valid() && d.faults <= old(d.faults) && d.edits <= old(d.edits)
    ensures d.edits == old(d.edits) ==> d.live - {CONFIG_PATH} == old(d.live) - {CONFIG_PATH}
    ensures d.lock == old(d.lock) && d.generations == old(d.generations) && d.game == old(d.game) &&
      d.artifacts == old(d.artifacts)
    ensures d.state == old(d.state) || d.state == old(d.state).(promotion := None)
    ensures ok ==> d.state == old(d.state).(promotion := None) && d.proc.Idle?
    ensures !ok ==> d.faults < old(d.faults) && d.proc == old(d.proc)
  {
    hide Grounded;
    ok := d.SaveState(d.state.(promotion := None), d.proc, d.backups, ClearIntent);
    if ok {
      Settled(d);
    }
  }

  /** A finished promotion: records at their destination, lock durable, cleanup done, no artifact left. */
  ghost predicate Reconciled(m0: Machine, m: Machine) {
    m0.state.promotion.Some? ==>
      && m.state == Destination(m0.state) && m.proc.Idle?
      && m.lock == Some(m0.state.promotion.value.lock)
      && m.generations == Surviving(m0.generations, m0.state.pendingCleanup)
      && forall i :: 0 <= i < |Entries(m0)| ==>
           Entries(m0)[i].quarantinePath !in m.artifacts && Entries(m0)[i].tombstonePath !in m.artifacts
  }

  /** The records part of reconcilePromotion, for either half of a promotion. */
  method ReconcileRecords(d: Disk) returns (ok: bool)
    requires d.Valid() && d.state.promotion.Some?
    modifies d
    ensures d.Valid() && d.faults <= old(d.faults) && d.edits <= old(d.edits)
    ensures d.edits == old(d.edits) ==> d.live - {CONFIG_PATH} == old(d.live) - {CONFIG_PATH}
    ensures d.generations == old(d.generations) && d.proc.Recovering? && d.game == old(d.game)
    ensures d.state == old(d.state) || (old(d.state).candidate.Some? && d.state == SwitchedState(old(d.state)))
    ensures d.artifacts.Keys <= old(d.artifacts).Keys
    ensures ok ==> && d.lock == Some(old(d.state).promotion.value.lock)
                   && d.state == (if old(d.state).candidate.Some? then SwitchedState(old(d.state)) else old(d.state))
                   && d.state.candidate.None? && d.state.transaction.None?
    ensures ok ==> forall i :: 0 <= i < |Entries(old(d.M()))| ==>
      Entries(old(d.M()))[i].quarantinePath !in d.artifacts && Entries(old(d.M()))[i].tombstonePath !in d.artifacts
    ensures d.faults == old(d.faults) ==> (ok <==> ArtifactsMatch(old(d.M())))
  {
    IntentIsSound(d);
    hide Grounded, ArtifactsMatch, PackageLockDigest;
    var promotion := d.state.promotion.value;
    if promotion.generationID == "" || promotion.lock.digest.NoDigest? ||
      promotion.lock.digest != PackageLockDigest(promotion.lock) {
      assert false;
    }
    if d.state.candidate.Some? {
      var candidate, transaction := d.state.candidate.value, d.state.transaction;
      if candidate.id != promotion.generationID || candidate.lockDigest != promotion.lock.digest || transaction.None?
         || transaction.value.generationID != promotion.generationID || !transaction.value.phase.AppliedPhase? {
        assert false;
      }
      ok := SwitchCandidate(d);
    } else {
      if d.state.active.None? || d.state.active.value.id != promotion.generationID
         || d.state.active.value.lockDigest != promotion.lock.digest {
        assert false;
      }
      NothingMatches(d.M());
      ok := RestoreLock(d);
    }
  }

  lemma NothingMatches(m: Machine)
    requires m.state.transaction.None?
    ensures ArtifactsMatch(m)
  {
  }

  /**
   * reconcilePromotion. Without an intent it only inspects; with one it rolls forward, never
   * touches a live file, and whatever it leaves has the same destination. With no fault it
   * succeeds exactly when the artifacts of the transaction are the journaled ones.
   */
  method ReconcilePromotion(d: Disk) returns (ok: bool)
    requires d.Valid()
    modifies d
    ensures d.Valid() && d.faults <= old(d.faults) && d.edits <= old(d.edits)
    ensures d.edits == old(d.edits) ==> d.live - {CONFIG_PATH} == old(d.live) - {CONFIG_PATH}
    ensures d.game == old(d.game)
    ensures d.artifacts.Keys <= old(d.artifacts).Keys
    ensures old(d.state).promotion.None? ==>
      d.M() == old(d.M()) && d.Around() == old(d.Around()).(faults := d.faults)
    ensures old(d.state).promotion.Some? ==> Destination(d.state) == Destination(old(d.state))
    ensures old(d.state).promotion.Some? && !ok ==> d.proc.Recovering?
    ensures ok ==> Reconciled(old(d.M()), d.M())
    ensures d.faults == old(d.faults) ==> (ok <==> ArtifactsMatch(old(d.M())))
  {
    if d.state.promotion.Some? {
      IntentIsSound(d);
    }
    ghost var m0 := d.M();
    hide Grounded, ArtifactsMatch, PackageLockDigest;
    var found, s;
    ok, s := d.Load();
    if !ok {
      return false;
    }
    ok, found := TransactionArtifacts(d);
    if !ok {
      return false;
    }
    if s.promotion.Some? {
      ok := ReconcileRecords(d);
      if !ok {
        return false;
      }
    }
    ok := FinishReconciling(d, m0, d.M());
  }

  /** The cleanup list and the intent, once the records are written. */
  method FinishReconciling(d: Disk, ghost m0: Machine, ghost m1: Machine) returns (ok: bool)
    requires d.Valid() && d.M() == m1
    requires if m0.state.promotion.None? then m1 == m0
             else && m1.state == (if m0.state.candidate.Some? then SwitchedState(m0.state) else m0.state)
                  && m1.state.candidate.None? && m1.state.transaction.None? && m1.proc.Recovering?
                  && m1.lock == Some(m0.state.promotion.value.lock) && m1.generations == m0.generations
                  && forall i :: 0 <= i < |Entries(m0)| ==>
                       Entries(m0)[i].quarantinePath !in m1.artifacts && Entries(m0)[i].tombstonePath !in m1.artifacts
    modifies d
    ensures d.Valid() && d.faults <= old(d.faults) && d.edits <= old(d.edits)
    ensures d.edits == old(d.edits) ==> d.live - {CONFIG_PATH} == old(d.live) - {CONFIG_PATH}
    ensures d.game == old(d.game)
    ensures d.artifacts.Keys <= old(d.artifacts).Keys
    ensures m0.state.promotion.None? ==> d.M() == m0 && d.Around() == old(d.Around())
    ensures m0.state.promotion.Some? ==> Destination(d.state) == Destination(m0.state)
    ensures m0.state.promotion.Some? && !ok ==> d.proc.Recovering?
    ensures ok ==> Reconciled(m0, d.M())
    ensures !ok ==> d.faults < old(d.faults)
  {
    hide Grounded, Surviving;
    ok := CleanUp(d);
    if ok && d.state.promotion.Some? {
      ok := ClearPromotion(d);
    }
  }

  // ---- CommitPromotion, RecoverPromotion ----

  /** What CommitPromotion checks before it writes the intent. */
  ghost predicate Promotable(m: Machine, staged: StagedGeneration) {
    && StagedMatches(m.generations, staged)
    && m.state.candidate.Some? && m.state.candidate.value.id == staged.record.id
    && m.state.candidate.value.lockDigest == staged.record.lockDigest
    && m.state.transaction.Some? && m.state.transaction.value.phase.AppliedPhase?
    && m.state.promotion.None? && ArtifactsMatch(m)
  }

  function IntendedState(s: State, staged: StagedGeneration): State {
    s.(promotion := Some(PromotionJournal(staged.record.id, staged.lock)),
       pendingCleanup := CleanupGenerationIDs(s.previous, s.failed))
  }

  lemma IntentPermitted(d: Disk, staged: StagedGeneration)
    requires d.Valid() && Promotable(d.M(), staged) && d.proc.Serving?
    ensures d.Permitted(Intend)
    ensures Step(d.M(), Intend) == d.M().(state := IntendedState(d.state, staged), proc := Recovering)
  {
    hide Grounded, ArtifactsMatch, HasRuntimeFiles, CleanupGenerationIDs;
  }

  lemma JournalNamesCandidate(d: Disk)
    requires d.Valid() && d.state.transaction.Some?
    ensures d.state.candidate.Some? && d.state.transaction.value.generationID == d.state.candidate.value.id
    ensures !d.state.transaction.value.phase.OtherPhase?
  {
    LedgerNow(d);
    hide Grounded, RecordsPart, ArtifactsOk, JournalOf, JournalShape, ValidEntry, IsName, DistinctPaths;
  }

  /**
   * CommitPromotion, by the process whose Apply is still in force. Not committed means nothing
   * was written; once the intent may be durable, every later outcome has the same destination.
   */
  method CommitPromotion(d: Disk, staged: StagedGeneration) returns (outcome: PromotionCommitOutcome)
    requires d.Valid()
    requires d.state.promotion.None? && d.state.transaction.Some? && d.state.transaction.value.phase.AppliedPhase? ==>
      d.proc.Serving?
    modifies d
    ensures d.Valid() && d.faults <= old(d.faults) && d.edits <= old(d.edits)
    ensures d.edits == old(d.edits) ==> d.live - {CONFIG_PATH} == old(d.live) - {CONFIG_PATH}
    ensures d.game == old(d.game)
    ensures outcome.PromotionNotCommitted? ==> d.M() == old(d.M())
    ensures outcome.PromotionCommitted? ==>
      && Promotable(old(d.M()), staged)
      && Reconciled(old(d.M()).(state := IntendedState(old(d.state), staged)), d.M())
    ensures outcome.PromotionRecoveryRequired? ==>
      || (old(d.state).promotion.Some? && d.M() == old(d.M()))
      || (Promotable(old(d.M()), staged) && d.state == old(d.state))
      || (&& Promotable(old(d.M()), staged) && d.proc.Recovering?
          && Destination(d.state) == Destination(IntendedState(old(d.state), staged)))
    ensures d.faults == old(d.faults) ==> (outcome.PromotionCommitted? <==> Promotable(old(d.M()), staged))
  {
    ghost var m0 := d.M();
    if d.state.transaction.Some? {
      JournalNamesCandidate(d);
    }
    hide Grounded, ArtifactsMatch, StagedMatches, Reconciled, Destination;
    var ok := OpenAndValidateStaged(d, staged);
    if !ok {
      return PromotionNotCommitted;
    }
    var s, found;
    ok, s := d.Load();
    if !ok {
      return PromotionNotCommitted;
    }
    if s.candidate.None? || s.candidate.value.id != staged.record.id ||
      s.candidate.value.lockDigest != staged.record.lockDigest {
      return PromotionNotCommitted;
    }
    if s.transaction.None? || s.transaction.value.generationID != staged.record.id ||
      !s.transaction.value.phase.AppliedPhase? {
      return PromotionNotCommitted;
    }
    if s.promotion.Some? {
      return PromotionRecoveryRequired;
    }
    ok, found := TransactionArtifacts(d);
    if !ok {
      return PromotionNotCommitted;
    }
    outcome := CommitIntent(d, staged, m0);
  }

  /** The intent, and reconciliation of it. */
  method CommitIntent(d: Disk, staged: StagedGeneration, ghost m0: Machine) returns (outcome: PromotionCommitOutcome)
    requires d.Valid() && d.M() == m0 && Promotable(m0, staged) && d.proc.Serving?
    modifies d
    ensures d.Valid() && d.faults <= old(d.faults) && d.edits <= old(d.edits)
    ensures d.edits == old(d.edits) ==> d.live - {CONFIG_PATH} == old(d.live) - {CONFIG_PATH}
    ensures d.game == old(d.game)
    ensures !outcome.PromotionNotCommitted?
    ensures outcome.PromotionCommitted? ==> Reconciled(m0.(state := IntendedState(m0.state, staged)), d.M())
    ensures outcome.PromotionRecoveryRequired? ==>
      && d.faults < old(d.faults)
      && (d.state == m0.state ||
           (d.proc.Recovering? && Destination(d.state) == Destination(IntendedState(m0.state, staged))))
  {
    IntentPermitted(d, staged);
    hide Grounded, Enabled, Undisturbed, Step, Promotable, IntendedState;
    var ok := d.SaveState(IntendedState(d.state, staged), Recovering, d.backups, Intend);
    if !ok {
      return PromotionRecoveryRequired;
    }
    ghost var m1, faults := d.M(), d.faults;
    hide Reconciled, Destination;
    SameMatchesIntended(m0, staged, m1);
    ok := ReconcilePromotion(d);
    SameReconciled(m0, staged, m1, d.M());
    return if ok then PromotionCommitted else PromotionRecoveryRequired;
  }

  lemma SameMatchesIntended(m0: Machine, staged: StagedGeneration, m1: Machine)
    requires Promotable(m0, staged) && m1.state == IntendedState(m0.state, staged) && m1.artifacts == m0.artifacts
    ensures ArtifactsMatch(m1) && m1.state.promotion.Some?
  {
    hide StagedMatches;
    assert Entries(m1) == Entries(m0);
    forall i | 0 <= i < |Entries(m1)|
      ensures ArtifactsMatchAt(m1, Entries(m1)[i])
    {
      assert ArtifactsMatchAt(m0, Entries(m0)[i]);
    }
  }

  lemma SameReconciled(m0: Machine, staged: StagedGeneration, m1: Machine, m: Machine)
    requires m1.state == IntendedState(m0.state, staged) && m1.generations == m0.generations
    ensures Reconciled(m1, m) <==> Reconciled(m0.(state := IntendedState(m0.state, staged)), m)
  {
    var w := m0.(state := IntendedState(m0.state, staged));
    assert Entries(w) == Entries(m1);
  }

  /** What a committed promotion leaves: the staged generation active, its lock durable, the old active one previous. */
  lemma CommittedPromotion(m0: Machine, staged: StagedGeneration, m: Machine)
    requires Promotable(m0, staged) && Reconciled(m0.(state := IntendedState(m0.state, staged)), m)
    ensures m.lock == Some(staged.lock)
    ensures m.state.active == Some(GenerationRecord(staged.record.id, staged.record.lockDigest, ActiveStatus))
    ensures m.state.previous ==
      (if m0.state.active.Some? then Some(m0.state.active.value.(status := PreviousStatus)) else None)
    ensures m.state.candidate.None? && m.state.failed.None? && m.state.transaction.None? && m.state.promotion.None?
    ensures m.state.pendingCleanup == [] && m.state.runtime == m0.state.runtime &&
      m.state.steamBuild == m0.state.steamBuild
    ensures m.generations == Surviving(m0.generations, CleanupGenerationIDs(m0.state.previous, m0.state.failed))
  {
    hide ArtifactsMatch, StagedMatches, CleanupGenerationIDs, Surviving;
  }

  /** RecoverPromotion, the startup half of a promotion whose intent is durable. */
  method RecoverPromotion(d: Disk) returns (outcome: PromotionCommitOutcome)
    requires d.Valid()
    modifies d
    ensures d.Valid() && d.faults <= old(d.faults) && d.edits <= old(d.edits)
    ensures d.edits == old(d.edits) ==> d.live - {CONFIG_PATH} == old(d.live) - {CONFIG_PATH}
    ensures d.game == old(d.game)
    ensures old(d.state).promotion.None? ==> d.M() == old(d.M()) && !outcome.PromotionCommitted?
    ensures outcome.PromotionNotCommitted? ==> old(d.state).promotion.None?
    ensures outcome.PromotionCommitted? ==> old(d.state).promotion.Some? && Reconciled(old(d.M()), d.M())
    ensures old(d.state).promotion.Some? ==> Destination(d.state) == Destination(old(d.state))
    ensures d.faults == old(d.faults) ==>
      (outcome.PromotionCommitted? <==> old(d.state).promotion.Some? && ArtifactsMatch(old(d.M())))
  {
    hide Grounded, ArtifactsMatch;
    var ok, s := d.Load();
    if !ok {
      return PromotionRecoveryRequired;
    }
    if s.promotion.None? {
      return PromotionNotCommitted;
    }
    IntentIsSound(d);
    hide PackageLockDigest, Surviving;
    ok := ReconcilePromotion(d);
    if !ok {
      return PromotionRecoveryRequired;
    }
    ok, s := d.Load();
    if !ok {
      return PromotionRecoveryRequired;
    }
    if s.promotion.Some? || s.active.None? || s.active.value.id != old(d.state).promotion.value.generationID {
      assert false;
    }
    return PromotionCommitted;
  }

  // ---- Rollback ----

  /**
   * Rollback. A durable intent is rolled forward first; otherwise the transaction is undone.
   * With no fault and no outside write it succeeds exactly when the transaction is recoverable.
   */
  method Rollback(d: Disk) returns (ok: bool)
    requires d.Valid()
    modifies d
    ensures d.Valid() && d.faults <= old(d.faults) && d.edits <= old(d.edits)
    ensures old(d.state).promotion.Some? ==> Destination(d.state) == Destination(old(d.state))
    ensures old(d.state).promotion.Some? && d.edits == old(d.edits) ==>
      d.live - {CONFIG_PATH} == old(d.live) - {CONFIG_PATH}
    ensures d.game == old(d.game)
    ensures old(d.state).promotion.None? ==> RecoveryFrame(old(d.M()), d.M())
    ensures ok ==> d.state.transaction.None? && d.state.promotion.None? && d.state == Destination(old(d.state))
    ensures ok && old(d.state).promotion.None? && d.edits == old(d.edits) ==> RolledBack(old(d.M()), d.M())
    ensures old(d.state).promotion.None? && d.edits == old(d.edits) && d.faults == old(d.faults) ==>
      (ok <==> AllRecoverable(old(d.M())))
  {
    ghost var m0 := d.M();
    LedgerNow(d);
    RollbackFrames(m0);
    hide Grounded, ArtifactsMatch, AllRecoverable, RolledBack, Reconciled, Ledger;
    ok := ReconcilePromotion(d);
    if !ok {
      return false;
    }
    ReconciledDestination(m0, d.M());
    hide Destination;
    var s;
    ok, s := d.Load();
    if !ok {
      return false;
    }
    if s.transaction.None? {
      return true;
    }
    JournalNamesCandidate(d);
    if s.candidate.None? || s.transaction.value.generationID != s.candidate.value.id {
      assert false;
    }
    var r := RecoverInterruptedTransaction(d);
    return r.Recovered?;
  }

  lemma RollbackFrames(m: Machine)
    requires Ledger(m)
    ensures RecoveryFrame(m, m)
    ensures AllRecoverable(m) ==> ArtifactsMatch(m)
    ensures m.state.transaction.None? ==> AllRecoverable(m) && RolledBack(m, m)
    ensures m.state.promotion.None? && m.state.transaction.None? ==> Destination(m.state) == m.state
    ensures m.state.promotion.None? && m.state.transaction.Some? ==> Destination(m.state) == RecoveredState(m.state)
    ensures m.state.transaction.Some? ==> RecoveredState(m.state).transaction.None?
  {
    hide Ledger, ArtifactsMatchAt, Recoverable, ConfigRecoverable, ViewAt;
  }

  lemma ReconciledDestination(m0: Machine, m: Machine)
    requires Reconciled(m0, m)
    ensures m0.state.promotion.Some? ==>
      m.state == Destination(m0.state) && m.state.promotion.None? && m.state.candidate.None?
  {
    hide Surviving;
  }
}
