/**
 * Whole runs without outside writers: the journaled protocol refines one atomic switch of the
 * chosen generation, keeps every original until the switch, and always recovers.
 */
module Runs {
  import opened Prelude
  import opened Records
  import opened Journal
  import opened EntryRecovery
  import opened Machine
  import opened Invariant
  import opened Ledgers
  import opened Preservation

  /** A fresh installation: an empty state directory and arbitrary unmanaged files. */
  predicate Fresh(m: Machine) {
    && m.artifacts == map[] && m.generations == map[] && m.lock.None?
    && m.state.active.None? && m.state.previous.None? && m.state.candidate.None? && m.state.failed.None?
    && m.state.transaction.None? && m.state.promotion.None? && m.state.pendingCleanup == []
  }

  lemma FreshSatisfiesInvariant(m: Machine)
    requires Fresh(m)
    ensures Inv(m.live - {CONFIG_PATH}, m.(proc := Recovering))
  {
    hide IsName;
  }

  /** Every state of every calm run satisfies the invariant. */
  lemma {:induction false} RunPreserves(world: World, m: Machine, run: seq<Event>)
    requires Inv(world, m) && Calm(m, run)
    ensures Inv(world, Exec(m, run))
    decreases |run|
  {
    if run != [] {
      hide Inv, Enabled, Undisturbed, Step;
      StepPreserves(world, m, run[0]);
      RunPreserves(world, Step(m, run[0]), run[1..]);
    }
  }

  // ---- Refinement of an atomic switch ----

  /** The generation the durable state stands for: the intended one, or else the active one. */
  function Chosen(m: Machine): Option<Generation> {
    if m.state.promotion.Some? then Get(m.generations, m.state.promotion.value.generationID)
    else if m.state.active.Some? then Get(m.generations, m.state.active.value.id)
    else None
  }

  function IntendedGeneration(m: Machine): Option<Generation> {
    if m.state.candidate.Some? then Get(m.generations, m.state.candidate.value.id) else None
  }

  /** One step either leaves the chosen generation alone or, being the intent, switches it. */
  lemma StepRefines(m: Machine, ev: Event)
    requires Ledger(m) && Enabled(m, ev)
    ensures Chosen(Step(m, ev)) == if ev.Intend? then IntendedGeneration(m) else Chosen(m)
  {
    hide JournalPart, RecordsPart, Step, Enabled;
    if IsFilesOnly(ev) {
      FilesOnlyIs(m, ev);
    } else if ev.Stage? || ev.Discard? || ev.RemoveGeneration? {
      DirectoriesKeepChosen(m, ev);
    } else {
      RecordsRefine(m, ev);
    }
  }

  lemma RecordsRefine(m: Machine, ev: Event)
    requires RecordsPart(m) && Enabled(m, ev) && !IsFilesOnly(ev) && !ev.Stage? && !ev.Discard? && !ev.RemoveGeneration?
    ensures Chosen(Step(m, ev)) == if ev.Intend? then IntendedGeneration(m) else Chosen(m)
  {
    hide ViewAt, ConsistentGeneration, IsName, NoArtifactsBelow, JournalOf, ValidTransactionState, CleanupOk;
  }

  lemma DirectoriesKeepChosen(m: Machine, ev: Event)
    requires RecordsPart(m) && Enabled(m, ev) && (ev.Stage? || ev.Discard? || ev.RemoveGeneration?)
    ensures Chosen(Step(m, ev)) == Chosen(m)
  {
    hide IsName, ConsistentGeneration;
  }

  /** The abstract run: the value of a single cell that only the intents write. */
  function Committed(m: Machine, run: seq<Event>, chosen: Option<Generation>): Option<Generation>
    decreases |run|
  {
    if run == [] then chosen
    else Committed(Step(m, run[0]), run[1..], if run[0].Intend? then IntendedGeneration(m) else chosen)
  }

  /** Outside writers or not, the durable state stands for what the last durable intent chose. */
  lemma {:induction false} RunRefines(m: Machine, run: seq<Event>)
    requires Ledger(m) && Legal(m, run)
    ensures Chosen(Exec(m, run)) == Committed(m, run, Chosen(m))
    decreases |run|
  {
    if run != [] {
      hide Ledger, Enabled, Step, Chosen, IntendedGeneration;
      StepRefines(m, run[0]);
      StepKeepsLedger(m, run[0]);
      RunRefines(Step(m, run[0]), run[1..]);
    }
  }

  /** All live files, except BepInEx.cfg, when generation `g` (or none) is installed in `world`. */
  function Installation(world: World, g: Option<Generation>): map<string, string> {
    world + (if g.Some? then g.value.manifest.files else map[])
  }

  predicate RecordNames(record: GenerationRecord, g: Generation) {
    record.id == g.manifest.generationID && record.lockDigest == g.lock.digest
  }

  /**
   * Whole-run atomicity. Whatever was applied, interrupted, recovered and promoted, with crashes
   * anywhere: once startup recovery is done, the live files, the package lock and the Active
   * record are those of one generation, the last one whose promotion intent became durable.
   */
  lemma WholeRunAtomicity(world: World, m: Machine, run: seq<Event>)
    requires Inv(world, m) && Calm(m, run) && Exec(m, run).proc.Idle?
    ensures var w, g := Exec(m, run), Committed(m, run, Chosen(m));
      && w.live - {CONFIG_PATH} == Installation(world, g)
      && w.lock == (if g.Some? then Some(g.value.lock) else None)
      && w.state.active.Some? == g.Some?
      && (g.Some? ==> RecordNames(w.state.active.value, g.value))
      && w.state.candidate.None? && w.state.transaction.None? && w.state.promotion.None?
  {
    RunPreserves(world, m, run);
    CalmIsLegal(m, run);
    RunRefines(m, run);
    IdleNamesChosen(world, Exec(m, run));
    IdleRecordsNameChosen(Exec(m, run));
  }

  lemma {:induction false} CalmIsLegal(m: Machine, run: seq<Event>)
    requires Calm(m, run)
    ensures Legal(m, run)
    decreases |run|
  {
    if run != [] {
      hide Enabled, Undisturbed, Step;
      CalmIsLegal(Step(m, run[0]), run[1..]);
    }
  }

  /** An idle controller's lock and Active record name the chosen generation, whatever happened to live files. */
  lemma IdleRecordsNameChosen(w: Machine)
    requires Ledger(w) && w.proc.Idle?
    ensures w.lock == (if Chosen(w).Some? then Some(Chosen(w).value.lock) else None)
    ensures w.state.active.Some? == Chosen(w).Some?
    ensures Chosen(w).Some? ==> RecordNames(w.state.active.value, Chosen(w).value)
    ensures w.state.candidate.None? && w.state.transaction.None? && w.state.promotion.None?
  {
    hide IsName, IsRelativePath, ArtifactsOk, ValidManifest;
  }

  lemma IdleNamesChosen(world: World, w: Machine)
    requires Inv(world, w) && w.proc.Idle?
    ensures w.live - {CONFIG_PATH} == Installation(world, Chosen(w))
  {
    hide IsName, IsRelativePath, EntriesOk, ArtifactsOk, HasEntry;
    var files := FilesOf(w, w.state.active);
    assert CONFIG_PATH !in files by {
      ConfigIsNotManaged();
      hide IsManagedRuntimePath;
      assert w.state.active.Some? ==>
        ConsistentGeneration(w.state.active.value.id, w.generations[w.state.active.value.id]);
    }
    forall p
      ensures Get(w.live - {CONFIG_PATH}, p) == Get(world + files, p)
    {
    }
    MapsAgree(w.live - {CONFIG_PATH}, world + files);
  }

  lemma MapsAgree(a: map<string, string>, b: map<string, string>)
    requires forall p :: Get(a, p) == Get(b, p)
    ensures a == b
  {
    forall p
      ensures p in a <==> p in b
      ensures p in a ==> a[p] == b[p]
    {
      assert Get(a, p) == Get(b, p);
    }
  }

  lemma ConfigIsNotManaged()
    ensures !IsManagedRuntimePath(CONFIG_PATH)
  {
    assert CONFIG_PATH[0] == 'B' && CONFIG_PATH[8] == 'c' && CONFIG_PATH[10] == 'n';
    assert "BepInEx/core/"[10] == 'r' && "BepInEx/patchers/"[8] == 'p';
    assert "BepInEx/plugins/saltydk-managed/"[8] == 'p' && "dotnet/"[0] == 'd';
    assert ".doorstop_version"[0] == '.' && "doorstop_config.ini"[0] == 'd' && "winhttp.dll"[0] == 'w';
  }

  /** Without an intent, a finished recovery restores the live files, lock and Active record exactly. */
  lemma WithoutIntentNothingChanges(world: World, m: Machine, run: seq<Event>)
    requires Inv(world, m) && m.proc.Idle? && Calm(m, run) && Exec(m, run).proc.Idle?
    requires forall i :: 0 <= i < |run| ==> !run[i].Intend?
    ensures Exec(m, run).live - {CONFIG_PATH} == m.live - {CONFIG_PATH}
    ensures Exec(m, run).lock == m.lock
    ensures Exec(m, run).state.active == m.state.active && Exec(m, run).state.previous == m.state.previous
  {
    WholeRunAtomicity(world, m, run);
    IdleNamesChosen(world, m);
    IdleRecordsNameChosen(m);
    NoIntentNoChange(m, run, Chosen(m));
    CalmIsLegal(m, run);
    NoIntentNoSwitch(m, run);
  }

  /** Only a switch writes Active and Previous, and only an intent leads to one. */
  lemma {:induction false} NoIntentNoSwitch(m: Machine, run: seq<Event>)
    requires Legal(m, run) && m.state.promotion.None? && forall i :: 0 <= i < |run| ==> !run[i].Intend?
    ensures Exec(m, run).state.active == m.state.active && Exec(m, run).state.previous == m.state.previous
    decreases |run|
  {
    if run != [] {
      assert !run[0].Intend?;
      OneStepNoSwitch(m, run[0]);
      hide Step, Enabled;
      assert forall i :: 0 <= i < |run[1..]| ==> run[1..][i] == run[i + 1];
      NoIntentNoSwitch(Step(m, run[0]), run[1..]);
    }
  }

  lemma OneStepNoSwitch(m: Machine, ev: Event)
    requires Enabled(m, ev) && m.state.promotion.None? && !ev.Intend?
    ensures var w := Step(m, ev);
      w.state.promotion.None? && w.state.active == m.state.active && w.state.previous == m.state.previous
  {
    hide ViewAt, ValidTransactionState, JournalOf, ConsistentGeneration, IsName, NoArtifactsBelow;
  }

  lemma {:induction false} NoIntentNoChange(m: Machine, run: seq<Event>, chosen: Option<Generation>)
    requires forall i :: 0 <= i < |run| ==> !run[i].Intend?
    ensures Committed(m, run, chosen) == chosen
    decreases |run|
  {
    if run != [] {
      hide Step;
      assert !run[0].Intend?;
      assert forall i :: 0 <= i < |run[1..]| ==> run[1..][i] == run[i + 1];
      NoIntentNoChange(Step(m, run[0]), run[1..], chosen);
    }
  }

  // ---- Conservation ----

  /** Until an intent is durable, every journaled original is at its live path or in quarantine. */
  lemma OriginalsConserved(world: World, m: Machine, run: seq<Event>, index: nat)
    requires Inv(world, m) && Calm(m, run)
    requires ManagedOriginal(Exec(m, run), index)
    ensures OriginalHeld(Exec(m, run), index)
  {
    RunPreserves(world, m, run);
    ConservedNow(Exec(m, run), index);
  }

  predicate ManagedOriginal(w: Machine, index: nat) {
    && w.state.transaction.Some? && w.state.promotion.None?
    && index < |w.state.transaction.value.entries| && w.state.transaction.value.entries[index].existed
  }

  predicate OriginalHeld(w: Machine, index: nat)
    requires w.state.transaction.Some? && index < |w.state.transaction.value.entries|
  {
    var e := w.state.transaction.value.entries[index];
    || Get(w.live, e.relativePath) == Bytes(e.original)
    || Get(w.artifacts, e.quarantinePath) == Bytes(e.original)
  }

  lemma ConservedNow(w: Machine, index: nat)
    requires JournalShape(w.state) && EntriesOk(ModeOf(w), w) && ManagedOriginal(w, index)
    ensures OriginalHeld(w, index)
  {
    hide IsName, Separated;
    var e := w.state.transaction.value.entries[index];
    assert Entries(w)[index] == e && ValidHashes(e);
    assert EntryOk(ModeOf(w), e, ViewAt(w, e));
  }

  /** Once the intent is durable no rollback step is enabled, with or without outside writers. */
  lemma NoRollbackAfterIntent(m: Machine, index: nat, move: Move)
    requires m.state.promotion.Some?
    ensures !Enabled(m, FinishRecovery)
    ensures move.Restore? || move.Tombstone? || move.Install? || move.Quarantine? ==> !Enabled(m, MoveFile(index, move))
  {
  }

  /** Generation safety: every generation a record names has its directory, at every step of every run. */
  lemma GenerationSafety(m: Machine, run: seq<Event>, record: Option<GenerationRecord>)
    requires Ledger(m) && Legal(m, run) && record.Some?
    requires var s := Exec(m, run).state; record in [s.active, s.previous, s.candidate, s.failed]
    ensures SafelyReferenced(Exec(m, run), record.value.id)
  {
    RunKeepsLedger(m, run);
    hide Exec, JournalPart, SafelyReferenced;
    ReferencedIsSafe(Exec(m, run), record.value.id);
  }

  /** The directory is there and consistent, and neither Discard nor cleanup may remove it. */
  predicate SafelyReferenced(w: Machine, id: string) {
    && id in w.generations && ConsistentGeneration(id, w.generations[id])
    && (w.state.promotion.None? ==> w.state.pendingCleanup == [])
    && !Enabled(w, Discard(id))
    && (w.state.pendingCleanup != [] && Enabled(w, RemoveGeneration) ==> w.state.pendingCleanup[0] != id)
  }

  lemma ReferencedIsSafe(w: Machine, id: string)
    requires RecordsPart(w) && IsReferenced(w.state, id)
    ensures SafelyReferenced(w, id)
  {
    hide ConsistentGeneration, LockOk, ProcOk, IsName;
  }

  // ---- The server ----

  /** After the last start of a server the runtime state was saved, or there was none and it was recorded before. */
  predicate SavedSinceLaunch(recorded: bool, run: seq<Event>)
    decreases |run|
  {
    if run == [] then recorded
    else SavedSinceLaunch(run[0].SaveRuntime? || (recorded && !run[0].Launch?), run[1..])
  }

  /** Whatever happens after a save of the runtime state, a server that runs is the recorded one. */
  lemma {:induction false} ServerStaysRecorded(m: Machine, run: seq<Event>, recorded: bool)
    requires Legal(m, run) && (recorded ==> ServerRecorded(m)) && SavedSinceLaunch(recorded, run)
    ensures ServerRecorded(Exec(m, run))
    decreases |run|
  {
    if run != [] {
      StepKeepsServer(m, run[0]);
      hide Step, Enabled, ServerRecorded;
      ServerStaysRecorded(Step(m, run[0]), run[1..], run[0].SaveRuntime? || (recorded && !run[0].Launch?));
    }
  }

  lemma StepKeepsServer(m: Machine, ev: Event)
    requires Enabled(m, ev)
    ensures ev.SaveRuntime? || (ServerRecorded(m) && !ev.Launch?) ==> ServerRecorded(Step(m, ev))
  {
    hide ViewAt, ValidTransactionState, JournalOf, ConsistentGeneration, IsName, NoArtifactsBelow;
  }

  // ---- Readiness ----

  /** Ready is durable only while nothing is pending: a launched candidate was promoted before. */
  lemma ReadyMeansPromoted(m: Machine, run: seq<Event>)
    requires Ledger(m) && Legal(m, run) && Exec(m, run).state.runtime.ready
    ensures var s := Exec(m, run).state; s.candidate.None? && s.transaction.None? && s.promotion.None?
  {
    RunKeepsLedger(m, run);
    hide Exec, ArtifactsOk, ConfigTombstoneFree, JournalOf, ValidTransactionState, GenerationsOk, RecordsOk, CleanupOk,
      LockOk, Legal;
    var s := Exec(m, run).state;
    assert JournalShape(s);
  }
}
