/** Every step of a calm run keeps live files faithful, and so keeps the whole invariant. */
module Preservation {
  import opened Prelude
  import opened Packages
  import opened Records
  import opened Journal
  import opened EntryRecovery
  import opened Machine
  import opened Invariant
  import opened Ledgers

  // ---- Frames ----

  lemma EntriesFrame(m: Machine, w: Machine, mode: Mode)
    requires w.live == m.live && w.artifacts == m.artifacts
    requires Entries(w) == Entries(m) && w.state.transaction.Some? == m.state.transaction.Some?
    requires m.state.transaction.Some? ==> |w.state.transaction.value.entries| == |m.state.transaction.value.entries|
    ensures EntriesOk(mode, m) ==> EntriesOk(mode, w)
  {
    hide EntryOk, ConfigOk;
    assert forall e :: ViewAt(w, e) == ViewAt(m, e);
  }

  lemma LiveFrame(world: World, m: Machine, w: Machine)
    requires w.live == m.live && FilesOf(w, w.state.active) == FilesOf(m, m.state.active)
    requires w.state.transaction.Some? == m.state.transaction.Some?
    requires m.state.transaction.Some? ==> w.state.transaction.value.entries == m.state.transaction.value.entries
    ensures LiveOk(world, m) ==> LiveOk(world, w)
  {
    hide HasEntry, FilesOf;
  }

  /** Steps on records that leave the mode of file operations alone. */
  lemma QuietStep(world: World, m: Machine, ev: Event)
    requires Inv(world, m) && Enabled(m, ev)
    requires ev.Settle? || ev.Fence? || ev.Launch? || ev.WriteLock? || ev.PopCleanup? || ev.ClearIntent? ||
      ev.SaveRuntime?
    ensures Faithful(world, Step(m, ev))
  {
    var w := Step(m, ev);
    hide ValidTransactionState, JournalOf, Separated, ValidHashes, IsName, ArtifactsOk, RecordsOk, GenerationsOk,
      EntriesOk, LiveOk, ConfigTombstoneFree,
      CleanupOk, LockOk;
    EntriesFrame(m, w, ModeOf(m));
    LiveFrame(world, m, w);
  }

  // ---- Changes of protocol ----

  /** Losing the process in the middle of Apply, or while serving, leaves something recovery accepts. */
  lemma CrashFaithful(world: World, m: Machine)
    requires Inv(world, m)
    ensures Faithful(world, Step(m, Crash))
  {
    var w := Step(m, Crash);
    if m.state.transaction.Some? {
      InterruptedEntries(m);
    }
    hide ValidTransactionState, JournalOk, ArtifactsOk, RecordsOk, GenerationsOk, EntriesOk, LiveOk,
      ConfigTombstoneFree, CleanupOk, LockOk;
    EntriesFrame(m, w, ModeOf(w));
    LiveFrame(world, m, w);
  }

  lemma InterruptedEntries(m: Machine)
    requires JournalShape(m.state) && EntriesOk(ModeOf(m), m) && m.state.transaction.Some?
    ensures m.state.promotion.None? ==> EntriesOk(RecoverMode, m)
  {
    hide IsName, Separated, ViewAt;
    if m.state.promotion.None? {
      forall i | 0 <= i < |m.state.transaction.value.entries|
        ensures Recoverable(Entries(m)[i], ViewAt(m, Entries(m)[i]))
      {
        var e := Entries(m)[i];
        assert EntryOk(ModeOf(m), e, ViewAt(m, e)) && ValidHashes(e);
        if ModeOf(m).ApplyMode? {
          ApplyLeavesRecoverable(e, ViewAt(m, e));
        }
      }
    }
  }

  lemma AppliedEntries(m: Machine)
    requires Enabled(m, MarkApplied) && Undisturbed(m, MarkApplied)
    ensures EntriesOk(QuietMode, m)
  {
  }

  lemma MarkAppliedIs(m: Machine)
    requires Enabled(m, MarkApplied)
    ensures var w := Step(m, MarkApplied);
      && ModeOf(w).QuietMode? && !w.proc.InApply? && Entries(w) == Entries(m)
      && w.live == m.live && w.artifacts == m.artifacts
      && FilesOf(w, w.state.active) == FilesOf(m, m.state.active)
      && m.state.transaction.Some? && w.state.transaction.Some?
      && w.state.transaction.value.entries == m.state.transaction.value.entries
  {
    hide ViewAt;
  }

  lemma MarkAppliedFaithful(world: World, m: Machine)
    requires Inv(world, m) && Enabled(m, MarkApplied) && Undisturbed(m, MarkApplied)
    ensures Faithful(world, Step(m, MarkApplied))
  {
    MarkAppliedIs(m);
    AppliedEntries(m);
    hide Ledger, Step, Enabled, Undisturbed, EntriesOk, LiveOk, FilesOf, ModeOf, Entries;
    EntriesFrame(m, Step(m, MarkApplied), QuietMode);
    LiveFrame(world, m, Step(m, MarkApplied));
  }

  lemma ServingEntries(m: Machine)
    requires JournalShape(m.state) && EntriesOk(QuietMode, m)
    ensures EntriesOk(PromoteMode, m)
  {
    hide IsName, Separated;
  }

  lemma IntendFaithful(world: World, m: Machine)
    requires Inv(world, m) && Enabled(m, Intend)
    ensures Faithful(world, Step(m, Intend))
  {
    IntendIs(m);
    ServingEntries(m);
    hide RecordsPart, ValidTransactionState, ArtifactsOk, EntriesOk, LiveOk, ConfigTombstoneFree, Step, Enabled,
      ModeOf, Entries, FilesOf;
    EntriesFrame(m, Step(m, Intend), PromoteMode);
    LiveFrame(world, m, Step(m, Intend));
  }

  lemma IntendIs(m: Machine)
    requires ProcOk(m) && Enabled(m, Intend)
    ensures var w := Step(m, Intend);
      && ModeOf(m).QuietMode? && ModeOf(w).PromoteMode? && !w.proc.InApply? && Entries(w) == Entries(m)
      && w.live == m.live && w.artifacts == m.artifacts && w.state.transaction == m.state.transaction
      && m.state.transaction.Some? && FilesOf(w, w.state.active) == FilesOf(m, m.state.active)
  {
    hide ViewAt;
  }

  // ---- Generation directories ----

  lemma StageFaithful(world: World, m: Machine, id: string, g: Generation)
    requires Inv(world, m) && Enabled(m, Stage(id, g))
    ensures Faithful(world, Step(m, Stage(id, g)))
  {
    hide PackageLockDigest, IsName, ValidManifest;
    var w := Step(m, Stage(id, g));
    assert FilesOf(w, w.state.active) == FilesOf(m, m.state.active) && ModeOf(w) == ModeOf(m) &&
      Entries(w) == Entries(m);
    hide Ledger, EntriesOk, LiveOk, FilesOf, ModeOf, Entries, ConsistentGeneration;
    EntriesFrame(m, w, ModeOf(m));
    LiveFrame(world, m, w);
  }

  lemma RemovalFaithful(world: World, m: Machine, id: string)
    requires Inv(world, m) && UnreferencedGeneration(m, id)
    ensures Faithful(world, WithoutGeneration(m, id))
  {
    var w := WithoutGeneration(m, id);
    assert FilesOf(w, w.state.active) == FilesOf(m, m.state.active);
    assert EntriesOk(ModeOf(w), w) by {
      RemovalEntries(m, id);
    }
    hide ValidTransactionState, JournalOk, ArtifactsOk, RecordsOk, GenerationsOk, EntriesOk, LiveOk,
      ConfigTombstoneFree, CleanupOk, LockOk, FilesOf;
    LiveFrame(world, m, w);
  }

  lemma RemovalEntries(m: Machine, id: string)
    requires ValidTransactionState(m.state) && EntriesOk(ModeOf(m), m) && UnreferencedGeneration(m, id)
    ensures EntriesOk(ModeOf(m), WithoutGeneration(m, id))
  {
    if m.state.transaction.Some? {
      forall i | 0 <= i < |Entries(m)|
        ensures ViewAt(WithoutGeneration(m, id), Entries(m)[i]) == ViewAt(m, Entries(m)[i])
      {
        RemovalKeepsViews(m, id, i);
      }
      hide ValidTransactionState, IsName, ViewAt, EntryOk, ConfigOk;
    }
  }

  // ---- Apply ----

  lemma BeginFaithful(world: World, m: Machine, j: TransactionJournal)
    requires Inv(world, m) && Enabled(m, Begin(j)) && Undisturbed(m, Begin(j))
    ensures Faithful(world, Step(m, Begin(j)))
  {
    BeginEntries(m, j);
    BeginLive(world, m, j);
    hide Ledger, Enabled, EntriesOk, LiveOk;
  }

  lemma BeginEntries(m: Machine, j: TransactionJournal)
    requires Enabled(m, Begin(j)) && Undisturbed(m, Begin(j))
    ensures EntriesOk(ApplyMode, Step(m, Begin(j))) && ModeOf(Step(m, Begin(j))).ApplyMode?
  {
    var w := Step(m, Begin(j));
    AcceptedShape(w.state);
    forall i | 0 <= i < |Entries(w)|
      ensures ViewAt(w, Entries(w)[i]) == Original(Entries(w)[i])
    {
      BeginArtifactsAbsent(w.state, m.artifacts, i);
      hide ValidTransactionState, IsName, Separated, JournalOf, ValidManifest, GenerationPrefix;
      assert Get(m.live, AllEntries(j)[i].relativePath) == Bytes(AllEntries(j)[i].original);
    }
  }

  lemma BeginLive(world: World, m: Machine, j: TransactionJournal)
    requires Inv(world, m) && Enabled(m, Begin(j)) && Undisturbed(m, Begin(j))
    ensures LiveOk(world, Step(m, Begin(j)))
  {
    hide ValidTransactionState, IsName, Separated, ConsistentGeneration, GenerationPrefix, NoArtifactsBelow;
    AcceptedShape(Step(m, Begin(j)).state);
    var active := FilesOf(m, m.state.active);
    forall i | 0 <= i < |j.entries|
      ensures j.entries[i].relativePath !in world
    {
      var e := j.entries[i];
      assert e == AllEntries(j)[i] && ValidHashes(e);
      assert Get(m.live, e.relativePath) == Bytes(e.original);
      assert Get(m.live, e.relativePath) == Get(world + active, e.relativePath);
    }
    forall p | p != CONFIG_PATH && !HasEntry(j.entries, p)
      ensures Get(m.live, p) == Get(world, p)
    {
      assert p !in active;
    }
  }

  // ---- File operations ----

  /** Replacing one entry's view by another that its protocol allows. */
  lemma PutEntries(m: Machine, index: nat, v: View, proc: Proc)
    requires JournalShape(m.state) && index < |Entries(m)|
    requires EntriesOk(ModeOf(m), m)
    requires var e := Entries(m)[index];
      var w := WithView(m, e, v).(proc := proc);
      && (if IsConfigIndex(m, index) then ConfigOk(ModeOf(w), e, v) else EntryOk(ModeOf(w), e, v))
      && (ModeOf(w) == ModeOf(m) || (ModeOf(m).ApplyMode? && ModeOf(w).RecoverMode?))
    ensures var w := WithView(m, Entries(m)[index], v).(proc := proc); EntriesOk(ModeOf(w), w)
  {
    hide IsName, Split;
    var w := WithView(m, Entries(m)[index], v).(proc := proc);
    WithViewFrame(m, Entries(m), index, v);
    forall i | 0 <= i < |Entries(m)| && i != index
      ensures if IsConfigIndex(m, i) then ConfigOk(ModeOf(w), Entries(m)[i], ViewAt(w, Entries(m)[i]))
              else EntryOk(ModeOf(w), Entries(m)[i], ViewAt(w, Entries(m)[i]))
    {
      assert ViewAt(w, Entries(m)[i]) == ViewAt(m, Entries(m)[i]);
      if ModeOf(w) != ModeOf(m) && !IsConfigIndex(m, i) {
        ApplyLeavesRecoverable(Entries(m)[i], ViewAt(m, Entries(m)[i]));
      }
    }
  }

  lemma PutLive(world: World, m: Machine, index: nat, v: View)
    requires JournalShape(m.state) && index < |Entries(m)| && LiveOk(world, m)
    ensures LiveOk(world, WithView(m, Entries(m)[index], v))
  {
    hide IsName, Split;
    var j, e := m.state.transaction.value, Entries(m)[index];
    if index < |j.entries| {
      assert e == j.entries[index];
      assert HasEntry(j.entries, e.relativePath);
    }
  }

  lemma MovedEntryOk(m: Machine, index: nat, move: Move)
    requires JournalShape(m.state) && EntriesOk(ModeOf(m), m)
    requires Enabled(m, MoveFile(index, move)) && Undisturbed(m, MoveFile(index, move))
    ensures var e := Entries(m)[index];
      var w := After(e, ViewAt(m, e), move);
      if IsConfigIndex(m, index) then ConfigOk(ModeOf(m), e, w) else EntryOk(ModeOf(m), e, w)
  {
    hide IsName, Separated;
    var e := Entries(m)[index];
    var v := ViewAt(m, e);
    assert ValidHashes(e);
    if IsConfigIndex(m, index) {
      assert ConfigOk(ModeOf(m), e, v);
    } else {
      assert EntryOk(ModeOf(m), e, v);
      if ModeOf(m).RecoverMode? {
        MoveApproachesOriginal(e, v);
      }
    }
  }

  lemma MoveFaithful(world: World, m: Machine, index: nat, move: Move)
    requires Inv(world, m) && Enabled(m, MoveFile(index, move)) && Undisturbed(m, MoveFile(index, move))
    ensures Faithful(world, Step(m, MoveFile(index, move)))
  {
    hide ValidTransactionState, JournalShape, EntriesOk, LiveOk, ArtifactsOk, RecordsOk, GenerationsOk, CleanupOk,
      LockOk, JournalOf, MoveAllowed, NextMove, After, ConfigTombstoneFree, Put, Undisturbed;
    var e := Entries(m)[index];
    var v := After(e, ViewAt(m, e), move);
    MovedEntryOk(m, index, move);
    PutEntries(m, index, v, m.proc);
    PutLive(world, m, index, v);
    assert WithView(m, e, v).(proc := m.proc) == Step(m, MoveFile(index, move));
  }

  lemma TornEntryOk(m: Machine, index: nat)
    requires JournalShape(m.state) && EntriesOk(ModeOf(m), m) && Enabled(m, TearFile(index))
    ensures var e := Entries(m)[index];
      var v := View(Bytes(e.original), Bytes(e.original), ViewAt(m, e).tombstone);
      var w := Step(m, TearFile(index));
      && w == WithView(m, e, v).(proc := Recovering)
      && ModeOf(w).RecoverMode? && (ModeOf(m).ApplyMode? || ModeOf(m).RecoverMode?)
      && (if IsConfigIndex(m, index) then ConfigOk(RecoverMode, e, v) else EntryOk(RecoverMode, e, v))
  {
    hide IsName, Separated, Put;
    assert ValidHashes(Entries(m)[index]);
  }

  lemma TearFaithful(world: World, m: Machine, index: nat)
    requires Inv(world, m) && Enabled(m, TearFile(index))
    ensures Faithful(world, Step(m, TearFile(index)))
  {
    var e := Entries(m)[index];
    var v := View(Bytes(e.original), Bytes(e.original), ViewAt(m, e).tombstone);
    TornEntryOk(m, index);
    hide Ledger, EntriesOk, LiveOk, Enabled, EntryOk, ConfigOk, Step, Put;
    PutEntries(m, index, v, Recovering);
    PutLive(world, m, index, v);
    LiveFrame(world, WithView(m, e, v), WithView(m, e, v).(proc := Recovering));
  }

  lemma RewriteFaithful(world: World, m: Machine, content: string)
    requires Inv(world, m) && Enabled(m, RewriteConfig(content))
    ensures Faithful(world, Step(m, RewriteConfig(content)))
  {
    var w := Step(m, RewriteConfig(content));
    hide ValidTransactionState, IsName, Separated, ArtifactsOk, RecordsOk, GenerationsOk, CleanupOk, LockOk,
      ConfigTombstoneFree;
    assert LiveOk(world, w);
    RewriteEntries(world, m, content);
  }

  lemma RewriteEntries(world: World, m: Machine, content: string)
    requires Inv(world, m) && Enabled(m, RewriteConfig(content))
    ensures var w := Step(m, RewriteConfig(content)); EntriesOk(ModeOf(w), w)
  {
    var w := Step(m, RewriteConfig(content));
    hide ValidTransactionState, IsName, Separated, ArtifactsOk, RecordsOk, GenerationsOk, CleanupOk, LockOk,
      ConfigTombstoneFree, LiveOk;
    if m.state.transaction.Some? {
      var j := m.state.transaction.value;
      forall i | 0 <= i < |j.entries|
        ensures ViewAt(w, Entries(w)[i]) == ViewAt(m, Entries(m)[i])
      {
        assert j.entries[i].relativePath != CONFIG_PATH;
      }
    }
  }

  // ---- Ends of recovery and promotion ----

  lemma FinishedFiles(m: Machine)
    requires Enabled(m, FinishRecovery) && Undisturbed(m, FinishRecovery)
    ensures m.state.transaction.Some?
    ensures var j := m.state.transaction.value;
      forall i :: 0 <= i < |j.entries| ==> Get(m.live, j.entries[i].relativePath) == Bytes(j.entries[i].original)
    ensures var w := Step(m, FinishRecovery);
      && w.live == m.live && w.state.transaction.None? && w.proc == m.proc && w.game == m.game
      && FilesOf(w, w.state.active) == FilesOf(m, m.state.active)
    ensures m.proc.Recovering?
  {
    hide KeptBackups;
    var j := m.state.transaction.value;
    forall i | 0 <= i < |j.entries|
      ensures Get(m.live, j.entries[i].relativePath) == Bytes(j.entries[i].original)
    {
      assert Entries(m)[i] == j.entries[i];
      assert ViewAt(m, Entries(m)[i]) == Original(Entries(m)[i]);
    }
  }

  lemma FinishRecoveryFaithful(world: World, m: Machine)
    requires Inv(world, m) && Enabled(m, FinishRecovery) && Undisturbed(m, FinishRecovery)
    ensures Faithful(world, Step(m, FinishRecovery))
  {
    hide ValidTransactionState, IsName, Separated, ArtifactsOk, RecordsPart, ConfigTombstoneFree, Enabled, Undisturbed,
      Step, FilesOf, EntryOk, ConfigOk;
    FinishedFiles(m);
    var j := m.state.transaction.value;
    var active := FilesOf(m, m.state.active);
    forall p | p != CONFIG_PATH
      ensures Get(m.live, p) == Get(world + active, p)
    {
      if HasEntry(j.entries, p) {
        var i :| 0 <= i < |j.entries| && j.entries[i].relativePath == p;
        assert p !in world;
        assert Get(m.live, p) == Bytes(j.entries[i].original);
        assert Bytes(j.entries[i].original) == Get(active, p);
      } else {
        assert p !in active;
        assert Get(m.live, p) == Get(world, p);
      }
    }
    forall p | p in active
      ensures p !in world
    {
      assert HasEntry(j.entries, p);
    }
  }

  lemma SwitchedFiles(m: Machine)
    requires Enabled(m, Switch)
    ensures m.state.transaction.Some? && ModeOf(m) == PromoteMode
    ensures var w := Step(m, Switch);
      && w.live == m.live && w.state.transaction.None?
      && FilesOf(w, w.state.active) == FilesOf(m, m.state.candidate)
  {
    hide ViewAt;
  }

  lemma PromotedLive(m: Machine, i: nat)
    requires m.state.transaction.Some? && EntriesOk(PromoteMode, m) && i < |m.state.transaction.value.entries|
    ensures var e := m.state.transaction.value.entries[i]; Get(m.live, e.relativePath) == Bytes(e.installed)
  {
    hide ConfigOk;
    assert Entries(m)[i] == m.state.transaction.value.entries[i];
    assert EntryOk(PromoteMode, Entries(m)[i], ViewAt(m, Entries(m)[i]));
  }

  lemma SwitchLive(world: World, m: Machine)
    requires JournalShape(m.state) && EntriesOk(ModeOf(m), m) && LiveOk(world, m) && Enabled(m, Switch)
    requires JournalOf(m.state.transaction.value, FilesOf(m, m.state.active), FilesOf(m, m.state.candidate))
    ensures LiveOk(world, Step(m, Switch))
  {
    hide IsName, Separated, Enabled, Step, FilesOf, ModeOf, EntriesOk;
    SwitchedFiles(m);
    var w := Step(m, Switch);
    var j := m.state.transaction.value;
    var next := FilesOf(m, m.state.candidate);
    forall p | p != CONFIG_PATH
      ensures Get(m.live, p) == Get(world + next, p)
    {
      if HasEntry(j.entries, p) {
        var i :| 0 <= i < |j.entries| && j.entries[i].relativePath == p;
        PromotedLive(m, i);
      }
    }
    forall p | p in next
      ensures p !in world
    {
      assert HasEntry(j.entries, p);
    }
  }

  lemma SwitchFaithful(world: World, m: Machine)
    requires Inv(world, m) && Enabled(m, Switch)
    ensures Faithful(world, Step(m, Switch))
  {
    SwitchLive(world, m);
    hide RecordsPart, JournalPart, LiveOk, JournalOf, ViewAt;
    assert Step(m, Switch).state.transaction.None? && Step(m, Switch).proc == m.proc;
  }

  lemma RemoveHeadFaithful(world: World, m: Machine)
    requires Inv(world, m) && Enabled(m, RemoveGeneration)
    ensures Faithful(world, Step(m, RemoveGeneration))
  {
    RemovalFaithful(world, m, m.state.pendingCleanup[0]);
    hide Ledger, Faithful, WithoutGeneration;
  }

  lemma DiscardFaithful(world: World, m: Machine, id: string)
    requires Inv(world, m) && Enabled(m, Discard(id))
    ensures Faithful(world, Step(m, Discard(id)))
  {
    RemovalFaithful(world, m, id);
    hide Ledger, Faithful, WithoutGeneration;
  }

  lemma StepFaithful(world: World, m: Machine, ev: Event)
    requires Inv(world, m) && Enabled(m, ev) && Undisturbed(m, ev)
    ensures Faithful(world, Step(m, ev))
  {
    hide *;
    match ev {
      case Crash => CrashFaithful(world, m);
      case Stage(id, g) => StageFaithful(world, m, id, g);
      case Discard(id) => DiscardFaithful(world, m, id);
      case Begin(j) => BeginFaithful(world, m, j);
      case MoveFile(index, move) => MoveFaithful(world, m, index, move);
      case TearFile(index) => TearFaithful(world, m, index);
      case MarkApplied => MarkAppliedFaithful(world, m);
      case FinishRecovery => FinishRecoveryFaithful(world, m);
      case Intend => IntendFaithful(world, m);
      case Switch => SwitchFaithful(world, m);
      case RemoveGeneration => RemoveHeadFaithful(world, m);
      case RewriteConfig(c) => RewriteFaithful(world, m, c);
      case Operate(_) => CalmIsNotOperate(m, ev);
      case _ => QuietStep(world, m, ev);
    }
  }

  lemma CalmIsNotOperate(m: Machine, ev: Event)
    requires Undisturbed(m, ev)
    ensures !ev.Operate?
  {
    hide ViewAt, ModeOf;
  }

  /** Every calm step keeps the invariant. */
  lemma StepPreserves(world: World, m: Machine, ev: Event)
    requires Inv(world, m) && Enabled(m, ev) && Undisturbed(m, ev)
    ensures Inv(world, Step(m, ev))
  {
    StepFaithful(world, m, ev);
    StepKeepsLedger(m, ev);
    hide Ledger, Faithful, Enabled, Undisturbed, Step;
  }
}
