/**
 * The invariant of calm runs (no one but the controller writes managed files) and its proof.
 *
 * `world` is everything live that no generation manages, except BepInEx.cfg; it never changes.
 */
module Invariant {
  import opened Prelude
  import opened Records
  import opened Journal
  import opened EntryRecovery
  import opened Machine

  type World = map<string, string>

  // ---- Generations and records ----

  predicate GenerationsOk(m: Machine) {
    forall id :: id in m.generations ==> ConsistentGeneration(id, m.generations[id])
  }

  /** Generation safety: a named generation has its directory, and the lock digest the record says. */
  predicate RecordOk(m: Machine, record: Option<GenerationRecord>) {
    record.Some? ==>
      && record.value.id in m.generations
      && m.generations[record.value.id].lock.digest == record.value.lockDigest
  }

  predicate Differ(a: Option<GenerationRecord>, b: Option<GenerationRecord>) {
    a.Some? && b.Some? ==> a.value.id != b.value.id
  }

  predicate RecordsOk(m: Machine) {
    var s := m.state;
    && RecordOk(m, s.active) && RecordOk(m, s.previous) && RecordOk(m, s.candidate) && RecordOk(m, s.failed)
    && Differ(s.candidate, s.active) && Differ(s.candidate, s.previous) && Differ(s.candidate, s.failed)
    && Differ(s.active, s.previous) && Differ(s.active, s.failed)
  }

  predicate CleanupOk(m: Machine) {
    var s := m.state;
    if s.promotion.None? then s.pendingCleanup == []
    else if s.candidate.Some? then s.pendingCleanup == CleanupGenerationIDs(s.previous, s.failed)
    else forall id :: id in s.pendingCleanup ==> UnreferencedGeneration(m, id)
  }

  /** The lock of a generation is the one durable for it: none before the first promotion. */
  predicate LockNames(m: Machine, record: Option<GenerationRecord>) {
    if record.None? then m.lock.None?
    else record.value.id in m.generations && m.lock == Some(m.generations[record.value.id].lock)
  }

  predicate LockOk(m: Machine) {
    var s := m.state;
    if s.promotion.None? then LockNames(m, s.active)
    else
      var p := s.promotion.value;
      && p.generationID in m.generations && p.lock == m.generations[p.generationID].lock
      && if s.candidate.Some?
         then s.candidate.value.id == p.generationID && (LockNames(m, s.active) || m.lock == Some(p.lock))
         else s.active.Some? && s.active.value.id == p.generationID && m.lock == Some(p.lock)
  }

  // ---- The transaction ----

  /** What acceptance gives, without the spelling of paths. */
  predicate JournalShape(s: State) {
    if s.transaction.None? then s.candidate.None?
    else
      var j := s.transaction.value;
      && s.candidate.Some? && s.candidate.value.id == j.generationID
      && IsName(j.generationID)
      && (forall i :: 0 <= i < |AllEntries(j)| ==> ValidHashes(AllEntries(j)[i]))
      && (j.config.Some? ==> j.config.value.relativePath == CONFIG_PATH && j.config.value.installed.ShaOf?)
      && Separated(AllEntries(j))
  }

  lemma AcceptedShape(s: State)
    requires ValidTransactionState(s)
    ensures JournalShape(s)
  {
    if s.transaction.Some? {
      AcceptedJournalIsSeparated(s);
      var j := s.transaction.value;
      forall i | 0 <= i < |AllEntries(j)|
        ensures ValidHashes(AllEntries(j)[i])
      {
        if i < |j.entries| {
          assert ValidEntry(j.generationID, AllEntries(j)[i], i, false);
        }
      }
    }
  }

  predicate ProcOk(m: Machine) {
    var s := m.state;
    && (m.proc.Idle? || s.runtime.ready ==> s.transaction.None? && s.promotion.None?)
    && (s.promotion.Some? ==> m.proc.Recovering?)
    && (s.promotion.Some? && s.candidate.Some? && s.transaction.Some? ==> s.transaction.value.phase.AppliedPhase?)
    && (m.proc.InApply? ==> s.transaction.Some? && s.promotion.None? && s.transaction.value.phase.ApplyingPhase?)
    && (m.proc.Serving? ==> s.transaction.Some? && s.promotion.None? && s.transaction.value.phase.AppliedPhase?)
  }

  /** What one managed entry can look like while the given file protocol is in force. */
  predicate EntryOk(mode: Mode, e: JournalEntry, v: View) {
    match mode
    case ApplyMode => Applying(e, v)
    case RecoverMode => Recoverable(e, v)
    case PromoteMode =>
      v.live == Bytes(e.installed) && v.tombstone.None? && (v.quarantine.Some? ==> v.quarantine == Bytes(e.original))
    case QuietMode => v == Installed(e)
  }

  predicate ConfigOk(mode: Mode, e: JournalEntry, v: View) {
    && v.tombstone.None?
    && match mode
       case ApplyMode => Applying(e, v)
       case RecoverMode => ConfigRecoverable(e, v)
       case PromoteMode => v.live.Some? && (v.quarantine.Some? ==> v.quarantine == Bytes(e.original))
       case QuietMode => v.live.Some? && v.quarantine == Bytes(e.original)
  }

  predicate EntriesOk(mode: Mode, m: Machine) {
    m.state.transaction.Some? ==>
      var all, n := Entries(m), |m.state.transaction.value.entries|;
      && (forall i :: 0 <= i < n ==> EntryOk(mode, all[i], ViewAt(m, all[i])))
      && (n < |all| ==> ConfigOk(mode, all[n], ViewAt(m, all[n])))
  }

  /** Live files outside the journal are as the world and, with no journal, the active generation say. */
  ghost predicate LiveOk(world: World, m: Machine) {
    var active := FilesOf(m, m.state.active);
    if m.state.transaction.None? then
      && world.Keys !! active.Keys
      && forall p :: p != CONFIG_PATH ==> Get(m.live, p) == Get(world + active, p)
    else
      var j := m.state.transaction.value;
      && (forall i :: 0 <= i < |j.entries| ==> j.entries[i].relativePath !in world)
      && (forall p :: p != CONFIG_PATH && !HasEntry(j.entries, p) ==> Get(m.live, p) == Get(world, p))
  }

  predicate JournalOk(m: Machine) {
    && JournalShape(m.state)
    && (m.state.transaction.Some? ==>
          JournalOf(m.state.transaction.value, FilesOf(m, m.state.active), FilesOf(m, m.state.candidate)))
  }

  /** Directories hold what is below them; artifacts belong to the journal or were kept on purpose. */
  ghost predicate ArtifactsOk(m: Machine) {
    && (forall a, id :: a in m.artifacts && IsName(id) && GenerationPrefix(id) <= a ==> id in m.generations)
    && (forall a :: a in m.artifacts ==>
         IsArtifactOf(Entries(m), a) || (a in m.backups && m.backups[a] == m.artifacts[a]))
  }

  /** The journaled configuration never has a tombstone. */
  predicate ConfigTombstoneFree(m: Machine) {
    m.state.transaction.Some? && m.state.transaction.value.config.Some? ==>
      ViewAt(m, m.state.transaction.value.config.value).tombstone.None?
  }

  /** Records, directories, the lock and the cleanup list. */
  predicate RecordsPart(m: Machine) {
    GenerationsOk(m) && RecordsOk(m) && CleanupOk(m) && LockOk(m) && ProcOk(m)
  }

  /** The journal and its artifacts. */
  ghost predicate JournalPart(m: Machine) {
    ValidTransactionState(m.state) && JournalOk(m) && ArtifactsOk(m) && ConfigTombstoneFree(m)
  }

  /** What holds of records, directories and artifacts even when others write live files. */
  ghost predicate Ledger(m: Machine) {
    RecordsPart(m) && JournalPart(m)
  }

  /** What holds of live files when no one else writes them. */
  ghost predicate Faithful(world: World, m: Machine) {
    && CONFIG_PATH !in world
    && (m.proc.InApply? ==> m.game.None?)
    && EntriesOk(ModeOf(m), m)
    && LiveOk(world, m)
  }

  ghost predicate Inv(world: World, m: Machine) {
    Ledger(m) && Faithful(world, m)
  }

  // ---- Frames ----

  /** Rewriting the places of one entry leaves every other entry's places alone. */
  lemma WithViewFrame(m: Machine, entries: seq<JournalEntry>, index: nat, v: View)
    requires Separated(entries) && index < |entries|
    ensures var w := WithView(m, entries[index], v);
      && ViewAt(w, entries[index]) == v
      && forall i :: 0 <= i < |entries| && i != index ==> ViewAt(w, entries[i]) == ViewAt(m, entries[i])
  {
    var e := entries[index];
    assert e.quarantinePath != e.tombstonePath;
  }

  /** Whatever is done to the places of two entries can be done in either order. */
  lemma EntriesCommute(m: Machine, entries: seq<JournalEntry>, i: nat, k: nat, v: View, w: View)
    requires Separated(entries) && i < |entries| && k < |entries| && i != k
    ensures WithView(WithView(m, entries[i], v), entries[k], w) == WithView(WithView(m, entries[k], w), entries[i], v)
  {
    var a, b := entries[i], entries[k];
    PutsCommute(m.live, a.relativePath, v.live, b.relativePath, w.live);
    assert a.quarantinePath != b.quarantinePath && a.tombstonePath != b.tombstonePath;
    assert a.quarantinePath != b.tombstonePath && a.tombstonePath != b.quarantinePath;
    var artifacts := Put(m.artifacts, a.quarantinePath, v.quarantine);
    PutsCommute(artifacts, a.tombstonePath, v.tombstone, b.quarantinePath, w.quarantine);
    PutsCommute(m.artifacts, a.quarantinePath, v.quarantine, b.quarantinePath, w.quarantine);
    PutsCommute(Put(artifacts, b.quarantinePath, w.quarantine), a.tombstonePath, v.tombstone, b.tombstonePath,
      w.tombstone);
    PutsCommute(Put(m.artifacts, b.quarantinePath, w.quarantine), a.quarantinePath, v.quarantine, b.tombstonePath,
      w.tombstone);
  }

  lemma PutsCommute(files: map<string, string>, a: string, x: Option<string>, b: string, y: Option<string>)
    requires a != b
    ensures Put(Put(files, a, x), b, y) == Put(Put(files, b, y), a, x)
  {
  }

  lemma JournalArtifactNamed(s: State, index: nat)
    requires ValidTransactionState(s) && s.transaction.Some? && index < |AllEntries(s.transaction.value)|
    ensures IsName(s.transaction.value.generationID)
    ensures var e, id := AllEntries(s.transaction.value)[index], s.transaction.value.generationID;
      e.quarantinePath == QuarantineName(id, index) && e.tombstonePath == TombstoneName(id, index)
  {
    var all := AllEntries(s.transaction.value);
    if index < |s.transaction.value.entries| {
      assert ValidEntry(s.transaction.value.generationID, all[index], index, false);
    }
  }
}
