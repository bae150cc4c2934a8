/** Every step keeps the ledger, whatever anyone does to live files in between. */
module Ledgers {
  import opened Prelude
  import opened Packages
  import opened Records
  import opened Journal
  import opened EntryRecovery
  import opened Machine
  import opened Invariant

  // ---- Frames ----

  /** Acceptance looks only at the candidate and the journal, and not at which phase it is in. */
  lemma AcceptanceFrame(s: State, t: State)
    requires ValidTransactionState(s)
    requires t.candidate == s.candidate
    requires SameEntries(s, t)
    ensures ValidTransactionState(t) && JournalShape(t)
    ensures s.transaction.Some? ==> AllEntries(t.transaction.value) == AllEntries(s.transaction.value)
  {
    assert ValidTransactionState(t) by {
      hide ValidEntry, IsName;
    }
    AcceptedShape(t);
  }

  predicate SameEntries(s: State, t: State) {
    || t.transaction == s.transaction
    || (s.transaction.Some? && t.transaction == Some(s.transaction.value.(phase := AppliedPhase)))
  }

  lemma AcceptedWithoutTransaction(s: State)
    requires s.transaction.None? && s.candidate.None?
    ensures ValidTransactionState(s) && JournalShape(s)
  {
  }

  /** Steps that leave directories, artifacts and the journal's entries alone leave the ledger's journal part alone. */
  lemma JournalFrame(m: Machine, w: Machine)
    requires JournalPart(m)
    requires w.artifacts == m.artifacts && w.generations == m.generations && w.backups == m.backups
    requires w.state.active == m.state.active && w.state.candidate == m.state.candidate
    requires SameEntries(m.state, w.state)
    ensures JournalPart(w)
  {
    AcceptanceFrame(m.state, w.state);
    hide ValidTransactionState, JournalShape, JournalOf, ArtifactsOk;
    ArtifactsFrame(m, w);
    if m.state.transaction.Some? {
      JournalOfFrame(m.state.transaction.value, w.state.transaction.value,
                     FilesOf(m, m.state.active), FilesOf(m, m.state.candidate));
    }
  }

  lemma JournalOfFrame(j: TransactionJournal, k: TransactionJournal, prior: map<string, string>,
                       next: map<string, string>)
    requires j.entries == k.entries && j.config == k.config && JournalOf(j, prior, next)
    ensures JournalOf(k, prior, next)
  {
    hide HasEntry;
  }

  lemma ArtifactsFrame(m: Machine, w: Machine)
    requires w.artifacts == m.artifacts && w.generations == m.generations && w.backups == m.backups
    requires Entries(w) == Entries(m)
    ensures ArtifactsOk(m) ==> ArtifactsOk(w)
  {
    hide IsName, GenerationPrefix, IsArtifactOf;
  }

  // ---- Records ----

  predicate IsRecordStep(ev: Event) {
    || ev.Crash? || ev.Settle? || ev.Fence? || ev.Launch? || ev.MarkApplied? || ev.Intend? || ev.WriteLock?
    || ev.PopCleanup? || ev.ClearIntent? || ev.SaveRuntime? || ev.RewriteConfig? || ev.Operate?
  }

  predicate IsFilesOnly(ev: Event) {
    || ev.MoveFile? || ev.TearFile? || ev.RewriteConfig? || ev.Operate?
    || ev.Crash? || ev.Settle? || ev.Fence? || ev.Launch?
  }

  lemma FilesOnlyIs(m: Machine, ev: Event)
    requires IsFilesOnly(ev) && Enabled(m, ev)
    ensures var w := Step(m, ev);
      && w.state == m.state && w.generations == m.generations && w.lock == m.lock
      && (w.proc == m.proc || w.proc.Recovering? ||
           (w.proc.Idle? && m.state.transaction.None? && m.state.promotion.None?))
  {
    hide ViewAt, After, MoveAllowed, Holds, Put;
  }

  lemma SameRecords(m: Machine, w: Machine)
    requires RecordsPart(m)
    requires w.state == m.state && w.generations == m.generations && w.lock == m.lock
    requires w.proc == m.proc || w.proc.Recovering? ||
      (w.proc.Idle? && m.state.transaction.None? && m.state.promotion.None?)
    ensures RecordsPart(w)
  {
    hide ConsistentGeneration, CleanupGenerationIDs, IsReferenced, IsName, PackageLockDigest;
  }

  /** Steps that touch no record, directory or lock. */
  lemma FilesOnlyStep(m: Machine, ev: Event)
    requires RecordsPart(m) && Enabled(m, ev) && IsFilesOnly(ev)
    ensures RecordsPart(Step(m, ev))
  {
    FilesOnlyIs(m, ev);
    hide Step, Enabled, IsFilesOnly;
    SameRecords(m, Step(m, ev));
  }

  /** Updates of state.json and of the lock. */
  lemma RecordsStep(m: Machine, ev: Event)
    requires RecordsPart(m) && JournalShape(m.state) && Enabled(m, ev) && IsRecordStep(ev)
    ensures RecordsPart(Step(m, ev))
  {
    hide Step, RecordsPart, Enabled, JournalShape;
    if ev.PopCleanup? {
      PopCleanupStep(m);
    } else if ev.MarkApplied? || ev.SaveRuntime? {
      SavedRecordsStep(m, ev);
    } else if ev.Intend? || ev.WriteLock? || ev.ClearIntent? {
      PromotionRecordsStep(m, ev);
    } else {
      FilesOnlyStep(m, ev);
    }
  }

  lemma PopCleanupStep(m: Machine)
    requires RecordsPart(m) && Enabled(m, PopCleanup)
    ensures RecordsPart(Step(m, PopCleanup))
  {
    hide ViewAt, IsName, ConsistentGeneration, PackageLockDigest;
    assert forall id :: id in m.state.pendingCleanup[1..] ==> id in m.state.pendingCleanup;
  }

  lemma SavedRecordsStep(m: Machine, ev: Event)
    requires RecordsPart(m) && Enabled(m, ev) && (ev.MarkApplied? || ev.SaveRuntime?)
    ensures RecordsPart(Step(m, ev))
  {
    hide ViewAt, ConsistentGeneration, IsName, EntriesOk, PackageLockDigest, Holds, CleanupGenerationIDs;
  }

  lemma PromotionRecordsStep(m: Machine, ev: Event)
    requires RecordsPart(m) && JournalShape(m.state) && Enabled(m, ev) &&
      (ev.Intend? || ev.WriteLock? || ev.ClearIntent?)
    ensures RecordsPart(Step(m, ev))
  {
    hide ViewAt, Separated, ValidHashes, IsName, ConsistentGeneration, CleanupGenerationIDs;
  }

  lemma RecordStep(m: Machine, ev: Event)
    requires Ledger(m) && Enabled(m, ev) && IsRecordStep(ev)
    ensures Ledger(Step(m, ev))
  {
    RecordsStep(m, ev);
    RecordStepIs(m, ev);
    hide RecordsPart, JournalPart, Step, Enabled, IsRecordStep, SameEntries;
    JournalFrame(m, Step(m, ev));
  }

  lemma RecordStepIs(m: Machine, ev: Event)
    requires IsRecordStep(ev) && Enabled(m, ev)
    ensures var w := Step(m, ev);
      && w.artifacts == m.artifacts && w.generations == m.generations && w.backups == m.backups
      && w.state.active == m.state.active && w.state.candidate == m.state.candidate
      && SameEntries(m.state, w.state)
  {
    hide ViewAt;
  }

  // ---- Generation directories ----

  lemma StageStep(m: Machine, id: string, g: Generation)
    requires Ledger(m) && Enabled(m, Stage(id, g))
    ensures Ledger(Step(m, Stage(id, g)))
  {
    hide ValidTransactionState, IsName, Separated, JournalOf, HasEntry, IsArtifactOf, GenerationPrefix,
      ConsistentGeneration;
  }

  /** Artifacts of the journal survive the removal of another generation's directory. */
  lemma RemovalKeepsViews(m: Machine, id: string, index: nat)
    requires ValidTransactionState(m.state) && index < |Entries(m)|
    requires IsName(id) && m.state.candidate.value.id != id
    ensures ViewAt(WithoutGeneration(m, id), Entries(m)[index]) == ViewAt(m, Entries(m)[index])
  {
    var cid := m.state.transaction.value.generationID;
    JournalArtifactNamed(m.state, index);
    NameHasNoSlash(cid);
    NameHasNoSlash(id);
    ArtifactBelowGeneration(cid, id, index);
    hide ValidTransactionState, IsName, GenerationPrefix, QuarantineName, TombstoneName;
  }

  lemma RemovalStep(m: Machine, id: string)
    requires Ledger(m) && UnreferencedGeneration(m, id)
    ensures Ledger(WithoutGeneration(m, id))
  {
    hide ValidTransactionState, IsName, Separated, JournalOf, HasEntry, GenerationPrefix, ArtifactsOk, ViewAt,
      ConsistentGeneration;
    RemovalKeepsArtifacts(m, id);
    if m.state.transaction.Some? && m.state.transaction.value.config.Some? {
      RemovalKeepsViews(m, id, |m.state.transaction.value.entries|);
    }
  }

  lemma RemovalKeepsArtifacts(m: Machine, id: string)
    requires ArtifactsOk(m)
    ensures ArtifactsOk(WithoutGeneration(m, id))
  {
    hide ValidTransactionState, IsName, GenerationPrefix, IsArtifactOf;
    var w := WithoutGeneration(m, id);
    forall a, other | a in w.artifacts && IsName(other) && GenerationPrefix(other) <= a
      ensures other in w.generations
    {
      assert a in m.artifacts;
    }
  }

  // ---- Apply ----

  /** With nothing below the candidate's directory, every artifact place of its journal is empty. */
  lemma BeginArtifactsAbsent(s: State, artifacts: map<string, string>, index: nat)
    requires ValidTransactionState(s) && s.transaction.Some? && index < |AllEntries(s.transaction.value)|
    requires NoArtifactsBelow(artifacts, s.transaction.value.generationID)
    ensures var e := AllEntries(s.transaction.value)[index];
      e.quarantinePath !in artifacts && e.tombstonePath !in artifacts
  {
    var id := s.transaction.value.generationID;
    JournalArtifactNamed(s, index);
    NameHasNoSlash(id);
    ArtifactBelowGeneration(id, id, index);
    hide ValidTransactionState, IsName, GenerationPrefix, QuarantineName, TombstoneName;
  }

  lemma BeginStep(m: Machine, j: TransactionJournal)
    requires Ledger(m) && Enabled(m, Begin(j))
    ensures Ledger(Step(m, Begin(j)))
  {
    BeginJournal(m, j);
    BeginRecords(m, j);
    hide *;
    assert Ledger(Step(m, Begin(j))) by {
      LedgerIs(Step(m, Begin(j)));
    }
  }

  lemma LedgerIs(m: Machine)
    requires RecordsPart(m) && JournalPart(m)
    ensures Ledger(m)
  {
  }

  lemma BeginRecords(m: Machine, j: TransactionJournal)
    requires RecordsPart(m) && Enabled(m, Begin(j))
    ensures RecordsPart(Step(m, Begin(j)))
  {
    hide ValidTransactionState, IsName, JournalOf, NoArtifactsBelow, ConsistentGeneration;
  }

  lemma BeginJournal(m: Machine, j: TransactionJournal)
    requires Ledger(m) && Enabled(m, Begin(j))
    ensures JournalPart(Step(m, Begin(j)))
  {
    var w := Step(m, Begin(j));
    AcceptedShape(w.state);
    assert FilesOf(w, w.state.active) == FilesOf(m, m.state.active);
    assert FilesOf(w, w.state.candidate) == m.generations[j.generationID].manifest.files;
    BeginConfigTombstone(m, j);
    hide ValidTransactionState, IsName, JournalOf, GenerationPrefix, NoArtifactsBelow, RecordsPart, JournalShape,
      IsArtifactOf, FilesOf, ConfigTombstoneFree;
    NoEntriesNoArtifacts(m, w);
  }

  lemma NoEntriesNoArtifacts(m: Machine, w: Machine)
    requires ArtifactsOk(m) && Entries(m) == []
    requires w.artifacts == m.artifacts && w.generations == m.generations && w.backups == m.backups
    ensures ArtifactsOk(w)
  {
    hide GenerationPrefix, IsName;
    assert forall a :: !IsArtifactOf(Entries(m), a);
  }

  lemma BeginConfigTombstone(m: Machine, j: TransactionJournal)
    requires Enabled(m, Begin(j))
    ensures ConfigTombstoneFree(Step(m, Begin(j)))
  {
    var w := Step(m, Begin(j));
    if j.config.Some? {
      BeginArtifactsAbsent(w.state, m.artifacts, |j.entries|);
    }
    hide ValidTransactionState, JournalOf, NoArtifactsBelow;
  }

  // ---- File operations ----

  lemma PutArtifacts(m: Machine, index: nat, v: View)
    requires ValidTransactionState(m.state) && index < |Entries(m)| && ArtifactsOk(m)
    requires m.state.transaction.value.generationID in m.generations
    ensures ArtifactsOk(WithView(m, Entries(m)[index], v))
  {
    var j, e := m.state.transaction.value, Entries(m)[index];
    var w := WithView(m, e, v);
    JournalArtifactNamed(m.state, index);
    NameHasNoSlash(j.generationID);
    hide ValidTransactionState, IsName, GenerationPrefix, QuarantineName, TombstoneName;
    forall a, id | a in w.artifacts && IsName(id) && GenerationPrefix(id) <= a
      ensures id in w.generations
    {
      NameHasNoSlash(id);
      ArtifactBelowGeneration(j.generationID, id, index);
    }
  }

  lemma PutJournal(m: Machine, index: nat, v: View, proc: Proc)
    requires JournalPart(m) && index < |Entries(m)|
    requires m.state.transaction.value.generationID in m.generations
    requires IsConfigIndex(m, index) ==> v.tombstone.None?
    ensures JournalPart(WithView(m, Entries(m)[index], v).(proc := proc))
  {
    var u := WithView(m, Entries(m)[index], v);
    PutArtifacts(m, index, v);
    PutConfigTombstone(m, index, v);
    hide ValidTransactionState, JournalShape, JournalOf, ArtifactsOk, ConfigTombstoneFree, Put;
    assert JournalOk(u);
    SameButProc(u, proc);
  }

  lemma PutConfigTombstone(m: Machine, index: nat, v: View)
    requires JournalShape(m.state) && ConfigTombstoneFree(m) && index < |Entries(m)|
    requires IsConfigIndex(m, index) ==> v.tombstone.None?
    ensures ConfigTombstoneFree(WithView(m, Entries(m)[index], v))
  {
    WithViewFrame(m, Entries(m), index, v);
    hide IsName, Separated;
    if m.state.transaction.value.config.Some? {
      assert Entries(m)[|m.state.transaction.value.entries|] == m.state.transaction.value.config.value;
    }
  }

  /** The journal part does not look at the volatile part. */
  lemma SameButProc(m: Machine, proc: Proc)
    ensures ArtifactsOk(m) ==> ArtifactsOk(m.(proc := proc))
    ensures JournalOk(m) ==> JournalOk(m.(proc := proc))
    ensures ConfigTombstoneFree(m) ==> ConfigTombstoneFree(m.(proc := proc))
  {
    hide IsArtifactOf, IsName, GenerationPrefix, JournalOf, JournalShape;
  }

  lemma MoveStep(m: Machine, index: nat, move: Move)
    requires Ledger(m) && Enabled(m, MoveFile(index, move))
    ensures Ledger(Step(m, MoveFile(index, move)))
  {
    var e := Entries(m)[index];
    var v := After(e, ViewAt(m, e), move);
    FilesOnlyStep(m, MoveFile(index, move));
    MoveKeepsConfigTombstone(m, index, move);
    CandidateHasDirectory(m);
    PutJournal(m, index, v, m.proc);
    assert WithView(m, e, v).(proc := m.proc) == Step(m, MoveFile(index, move)) by {
      hide *;
      MoveStepIs(m, index, move);
    }
    hide *;
    LedgerOf(Step(m, MoveFile(index, move)));
  }

  lemma LedgerOf(m: Machine)
    requires RecordsPart(m) && JournalPart(m)
    ensures Ledger(m)
  {
  }

  lemma MoveStepIs(m: Machine, index: nat, move: Move)
    requires index < |Entries(m)|
    ensures var e := Entries(m)[index];
      WithView(m, e, After(e, ViewAt(m, e), move)).(proc := m.proc) == Step(m, MoveFile(index, move))
  {
    hide ViewAt, After, Put;
  }

  lemma CandidateHasDirectory(m: Machine)
    requires RecordsPart(m) && JournalShape(m.state)
    ensures m.state.transaction.Some? ==> m.state.transaction.value.generationID in m.generations
  {
    hide IsName, Separated, ValidHashes;
  }

  lemma MoveKeepsConfigTombstone(m: Machine, index: nat, move: Move)
    requires ConfigTombstoneFree(m) && Enabled(m, MoveFile(index, move))
    ensures IsConfigIndex(m, index) ==> After(Entries(m)[index], ViewAt(m, Entries(m)[index]), move).tombstone.None?
  {
    if IsConfigIndex(m, index) {
      assert Entries(m)[index] == m.state.transaction.value.config.value;
    }
  }

  lemma TearStep(m: Machine, index: nat)
    requires Ledger(m) && Enabled(m, TearFile(index))
    ensures Ledger(Step(m, TearFile(index)))
  {
    var e := Entries(m)[index];
    var v := View(Bytes(e.original), Bytes(e.original), ViewAt(m, e).tombstone);
    FilesOnlyStep(m, TearFile(index));
    CandidateHasDirectory(m);
    TornStepIs(m, index);
    PutJournal(m, index, v, Recovering);
    hide *;
    LedgerOf(Step(m, TearFile(index)));
  }

  lemma TornStepIs(m: Machine, index: nat)
    requires Enabled(m, TearFile(index))
    ensures index < |Entries(m)|
    ensures var e := Entries(m)[index];
      var v := View(Bytes(e.original), Bytes(e.original), ViewAt(m, e).tombstone);
      v.tombstone.None? && WithView(m, e, v).(proc := Recovering) == Step(m, TearFile(index))
  {
    hide Put;
  }

  // ---- Ends of recovery and promotion ----

  lemma FinishRecoveryArtifacts(m: Machine)
    requires ArtifactsOk(m) && ConfigTombstoneFree(m) && Enabled(m, FinishRecovery)
    ensures ArtifactsOk(Step(m, FinishRecovery))
  {
    hide ValidTransactionState, IsName, Separated, JournalOf, HasEntry, ValidManifest, GenerationPrefix;
    var w := Step(m, FinishRecovery);
    forall a | a in w.artifacts
      ensures a in w.backups && w.backups[a] == w.artifacts[a]
    {
      if IsArtifactOf(Entries(m), a) {
        var i :| 0 <= i < |Entries(m)| && (a == Entries(m)[i].quarantinePath || a == Entries(m)[i].tombstonePath);
        var v := ViewAt(m, Entries(m)[i]);
        assert i == |m.state.transaction.value.entries| && a == Entries(m)[i].quarantinePath;
      }
    }
  }

  lemma FinishRecoveryStep(m: Machine)
    requires Ledger(m) && Enabled(m, FinishRecovery)
    ensures Ledger(Step(m, FinishRecovery))
  {
    var w := Step(m, FinishRecovery);
    FinishRecoveryArtifacts(m);
    FinishRecoveryRecords(m);
    AcceptedWithoutTransaction(w.state);
    hide RecordsPart, IsName, ArtifactsOk, Separated, JournalOf, ValidTransactionState, ViewAt, KeptBackups;
  }

  lemma FinishRecoveryRecords(m: Machine)
    requires RecordsPart(m) && Enabled(m, FinishRecovery)
    ensures RecordsPart(Step(m, FinishRecovery))
  {
    hide ConsistentGeneration, IsName, ViewAt, KeptBackups;
  }

  lemma SwitchArtifacts(m: Machine)
    requires ArtifactsOk(m) && Enabled(m, Switch)
    ensures ArtifactsOk(Step(m, Switch))
  {
    hide ValidTransactionState, IsName, Separated, JournalOf, HasEntry, ValidManifest, GenerationPrefix;
    var w := Step(m, Switch);
    forall a | a in w.artifacts
      ensures a in w.backups && w.backups[a] == w.artifacts[a]
    {
      if IsArtifactOf(Entries(m), a) {
        var i :| 0 <= i < |Entries(m)| && (a == Entries(m)[i].quarantinePath || a == Entries(m)[i].tombstonePath);
        var v := ViewAt(m, Entries(m)[i]);
      }
    }
  }

  lemma SwitchCleanup(m: Machine)
    requires GenerationsOk(m) && RecordsOk(m) && CleanupOk(m) && Enabled(m, Switch)
    ensures CleanupOk(Step(m, Switch))
  {
    hide PackageLockDigest, ValidTransactionState, IsName, Separated, JournalOf, HasEntry, ValidManifest,
      GenerationPrefix;
  }

  lemma SwitchRecords(m: Machine)
    requires RecordsPart(m) && Enabled(m, Switch)
    ensures RecordsPart(Step(m, Switch))
  {
    hide CleanupOk, ConsistentGeneration, ViewAt, PackageLockDigest, IsReferenced, JournalShape, EntriesOk, IsName,
      ValidManifest;
    SwitchCleanup(m);
  }

  lemma SwitchStep(m: Machine)
    requires Ledger(m) && Enabled(m, Switch)
    ensures Ledger(Step(m, Switch))
  {
    SwitchRecords(m);
    SwitchArtifacts(m);
    AcceptedWithoutTransaction(Step(m, Switch).state);
    hide RecordsPart, ArtifactsOk, ValidTransactionState, JournalShape, ViewAt;
  }

  lemma DiscardStep(m: Machine, id: string)
    requires Ledger(m) && Enabled(m, Discard(id))
    ensures Ledger(Step(m, Discard(id)))
  {
    hide Ledger, WithoutGeneration;
    RemovalStep(m, id);
  }

  lemma RemoveHeadStep(m: Machine)
    requires Ledger(m) && Enabled(m, RemoveGeneration)
    ensures Ledger(Step(m, RemoveGeneration))
  {
    hide Ledger, WithoutGeneration;
    RemovalStep(m, m.state.pendingCleanup[0]);
  }

  /** Every step, outside writes included, keeps the ledger. */
  lemma StepKeepsLedger(m: Machine, ev: Event)
    requires Ledger(m) && Enabled(m, ev)
    ensures Ledger(Step(m, ev))
  {
    hide Ledger, Step, Enabled;
    match ev {
      case Stage(id, g) => StageStep(m, id, g);
      case Discard(id) => DiscardStep(m, id);
      case Begin(j) => BeginStep(m, j);
      case MoveFile(index, move) => MoveStep(m, index, move);
      case TearFile(index) => TearStep(m, index);
      case FinishRecovery => FinishRecoveryStep(m);
      case Switch => SwitchStep(m);
      case RemoveGeneration => RemoveHeadStep(m);
      case _ => RecordStep(m, ev);
    }
  }

  /** The ledger holds at every state of every run. */
  lemma {:induction false} RunKeepsLedger(m: Machine, run: seq<Event>)
    requires Ledger(m) && Legal(m, run)
    ensures Ledger(Exec(m, run))
    decreases |run|
  {
    if run != [] {
      StepKeepsLedger(m, run[0]);
      hide Ledger, Enabled, Step;
      RunKeepsLedger(Step(m, run[0]), run[1..]);
    }
  }
}
