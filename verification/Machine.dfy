/**
 * The protocol: durable state, the atomic durable steps the controller can take, the steps of
 * the world around it, and runs.
 *
 * A crash loses everything but the durable state and returns to `Recovering`; every error
 * return of the code leaves the durable state at some point between two of these steps.
 */
module Machine {
  import opened Prelude
  import opened Packages
  import opened Records
  import opened Journal
  import opened EntryRecovery

  /**
   * What the running controller is doing, the only fact a crash forgets: recovering, idle after
   * a finished recovery, inside Apply, or serving the generation it has just applied.
   */
  datatype Proc = Recovering | Idle | InApply | Serving

  datatype Machine = Machine(
    live: map<string, string>,            // files below the server directory, outside the state directory
    artifacts: map<string, string>,       // quarantined files and tombstones, by state-relative path
    state: State,                         // state.json
    lock: Option<PackageLock>,            // package-lock.json
    generations: map<string, Generation>, // generation directories
    backups: map<string, string>,         // history: configuration originals that finished recoveries kept
    proc: Proc,
    game: Option<Running>)                // the game server that runs, and may rewrite its configuration

  datatype Event =
    | Crash
    | Settle
    | Fence
    | Launch(server: Running)
    | Stage(id: string, generation: Generation)
    | Discard(id: string)
    | Begin(journal: TransactionJournal)
    | MoveFile(index: nat, move: Move)
    | TearFile(index: nat)
    | MarkApplied
    | FinishRecovery
    | Intend
    | WriteLock
    | Switch
    | RemoveGeneration
    | PopCleanup
    | ClearIntent
    | SaveRuntime(runtime: RuntimeState, steamBuild: string)
    | RewriteConfig(content: string)
    | Operate(files: map<string, string>)

  // ---- Views of one entry ----

  function Entries(m: Machine): seq<JournalEntry> {
    if m.state.transaction.Some? then AllEntries(m.state.transaction.value) else []
  }

  predicate IsConfigIndex(m: Machine, index: nat) {
    m.state.transaction.Some? && index == |m.state.transaction.value.entries|
  }

  function ViewOf(live: map<string, string>, artifacts: map<string, string>, e: JournalEntry): View {
    View(Get(live, e.relativePath), Get(artifacts, e.quarantinePath), Get(artifacts, e.tombstonePath))
  }

  function ViewAt(m: Machine, e: JournalEntry): View {
    ViewOf(m.live, m.artifacts, e)
  }

  /** The machine with the three places of `e` as `v` says. */
  function WithView(m: Machine, e: JournalEntry, v: View): Machine {
    m.(live := Put(m.live, e.relativePath, v.live),
       artifacts := Put(Put(m.artifacts, e.quarantinePath, v.quarantine), e.tombstonePath, v.tombstone))
  }

  predicate NoArtifactsBelow(artifacts: map<string, string>, id: string) {
    forall a :: a in artifacts ==> !(GenerationPrefix(id) <= a)
  }

  function WithoutGeneration(m: Machine, id: string): Machine {
    m.(generations := m.generations - {id},
       artifacts := map a | a in m.artifacts && !(GenerationPrefix(id) <= a) :: m.artifacts[a])
  }

  // ---- Effects ----

  function FilesOf(m: Machine, record: Option<GenerationRecord>): map<string, string> {
    if record.Some? && record.value.id in m.generations then m.generations[record.value.id].manifest.files else map[]
  }

  function CandidateRecord(m: Machine, id: string): GenerationRecord
    requires id in m.generations
  {
    GenerationRecord(id, m.generations[id].lock.digest, CandidateStatus)
  }

  /** The state RecoverInterruptedTransaction saves last. */
  function RecoveredState(s: State): State {
    var cleared := s.(transaction := None);
    if s.candidate.Some?
    then cleared.(failed := Some(s.candidate.value.(status := FailedStatus)), candidate := None)
    else cleared
  }

  /** The state reconcilePromotion saves when it switches the active generation. */
  function SwitchedState(s: State): State
    requires s.candidate.Some?
  {
    s.(previous := if s.active.Some? then Some(s.active.value.(status := PreviousStatus)) else None,
       active := Some(s.candidate.value.(status := ActiveStatus)),
       candidate := None,
       failed := None,
       transaction := None)
  }

  /** The configuration original that a finished recovery leaves in quarantine, if any. */
  function KeptBackups(m: Machine): map<string, string> {
    if m.state.transaction.Some? && m.state.transaction.value.config.Some? then
      var e := m.state.transaction.value.config.value;
      if e.quarantinePath in m.artifacts then m.backups[e.quarantinePath := m.artifacts[e.quarantinePath]]
        else m.backups
    else m.backups
  }

  /** The artifact paths of the journal in force. */
  predicate IsArtifactOf(entries: seq<JournalEntry>, a: string) {
    exists i :: 0 <= i < |entries| && (a == entries[i].quarantinePath || a == entries[i].tombstonePath)
  }

  // ---- Guards ----

  /** Which of the three file protocols is in force. */
  datatype Mode = ApplyMode | RecoverMode | PromoteMode | QuietMode

  function ModeOf(m: Machine): Mode {
    if m.state.transaction.None? then QuietMode
    else if m.state.promotion.Some? then PromoteMode
    else if m.proc.InApply? then ApplyMode
    else if m.proc.Recovering? then RecoverMode
    else QuietMode
  }

  /** What each file operation checks atomically, or knows from artifacts that no one else touches. */
  predicate MoveAllowed(m: Machine, e: JournalEntry, config: bool, v: View, move: Move) {
    match move
    case Quarantine =>
      ModeOf(m).ApplyMode? && e.existed && v.live.Some? && v.quarantine.None?
    case Install =>
      && ModeOf(m).ApplyMode? && e.installed.ShaOf? && v.live.None? && v.tombstone.None?
      && v.quarantine == Bytes(e.original)
    case Restore =>
      && (ModeOf(m).ApplyMode? || ModeOf(m).RecoverMode?)
      && e.existed && v.live.None? && v.quarantine.Some?
      && (ModeOf(m).RecoverMode? ==> Holds(v.quarantine, e.original))
    case Tombstone =>
      && ModeOf(m).RecoverMode? && !config && e.installed.ShaOf? && v.live.Some? && v.tombstone.None?
      && v.quarantine == Bytes(e.original)
    case DropTombstone =>
      && ((ModeOf(m).RecoverMode? && !config && v.quarantine.None?) || Committing(m))
      && Holds(v.tombstone, e.tombstone)
    case DropQuarantine =>
      && ((ModeOf(m).RecoverMode? && v.tombstone.None?) || Committing(m))
      && e.existed && Holds(v.quarantine, e.original)
  }

  /** Promotion may drop artifacts once the promoted lock is durable. */
  predicate Committing(m: Machine) {
    && ModeOf(m).PromoteMode?
    && m.state.candidate.Some?
    && m.lock == Some(m.state.promotion.value.lock)
  }

  predicate UnreferencedGeneration(m: Machine, id: string) {
    IsName(id) && !IsReferenced(m.state, id)
  }

  predicate HasEntry(entries: seq<JournalEntry>, path: string) {
    exists i :: 0 <= i < |entries| && entries[i].relativePath == path
  }

  /** The journal is the difference between the active inventory and the candidate's. */
  predicate JournalOf(j: TransactionJournal, prior: map<string, string>, next: map<string, string>) {
    && (forall i :: 0 <= i < |j.entries| ==>
          var e := j.entries[i];
          && e.relativePath != CONFIG_PATH
          && (e.existed <==> e.relativePath in prior)
          && (e.existed ==> e.original == ShaOf(prior[e.relativePath]))
          && Bytes(e.installed) == Get(next, e.relativePath))
    && (forall p :: p in prior ==> HasEntry(j.entries, p))
    && (forall p :: p in next ==> HasEntry(j.entries, p))
    && (j.config.Some? ==> j.config.value.existed ==> j.config.value.original != j.config.value.installed)
  }

  predicate ConsistentGeneration(id: string, g: Generation) {
    && IsName(id)
    && ValidManifest(g.manifest)
    && g.manifest.generationID == id
    && g.manifest.lockDigest == g.lock.digest == PackageLockDigest(g.lock)
    && g.overlay == g.manifest.files
  }

  /** The guards that hold no matter what happens to live files between two steps. */
  predicate Enabled(m: Machine, ev: Event) {
    var s := m.state;
    match ev
    case Crash => true
    case Settle => s.transaction.None? && s.promotion.None?
    case Fence => true
    case Launch(_) => !m.proc.InApply? && m.game.None?
    case Stage(id, g) => id !in m.generations && ConsistentGeneration(id, g)
    case Discard(id) => UnreferencedGeneration(m, id)
    case Begin(j) =>
      && s.transaction.None? && s.candidate.None? && s.promotion.None? && !s.runtime.ready
      && j.generationID in m.generations && UnreferencedGeneration(m, j.generationID)
      && j.phase.ApplyingPhase?
      && NoArtifactsBelow(m.artifacts, j.generationID)
      && ValidTransactionState(Step(m, ev).state)
      && JournalOf(j, FilesOf(m, s.active), m.generations[j.generationID].manifest.files)
    case MoveFile(index, move) =>
      index < |Entries(m)| &&
      var e := Entries(m)[index];
      MoveAllowed(m, e, IsConfigIndex(m, index), ViewAt(m, e), move)
    case TearFile(index) =>
      (ModeOf(m).ApplyMode? || ModeOf(m).RecoverMode?) && index < |Entries(m)| &&
      var e := Entries(m)[index];
      var v := ViewAt(m, e);
      e.existed && v.tombstone.None? &&
      ((ModeOf(m).ApplyMode? && v.live == Bytes(e.original) && v.quarantine.None?) ||
       (v.live.None? && v.quarantine == Bytes(e.original)))
    case MarkApplied =>
      && ModeOf(m).ApplyMode? && s.transaction.value.phase.ApplyingPhase?
      && forall i :: 0 <= i < |Entries(m)| ==>
           var e, v := Entries(m)[i], ViewAt(m, Entries(m)[i]);
           v.quarantine == Bytes(e.original) && v.tombstone.None?
    case FinishRecovery =>
      && ModeOf(m).RecoverMode?
      && (forall i :: 0 <= i < |s.transaction.value.entries| ==>
            var v := ViewAt(m, Entries(m)[i]); v.quarantine.None? && v.tombstone.None?)
      && (s.transaction.value.config.Some? ==>
            var e := s.transaction.value.config.value;
            (ViewAt(m, e).quarantine.Some? ==> e.existed && Holds(ViewAt(m, e).quarantine, e.original)))
    case Intend =>
      && m.proc.Serving? && s.transaction.Some? && s.candidate.Some? && s.promotion.None?
      && s.transaction.value.phase.AppliedPhase?
      && s.candidate.value.id in m.generations
    case WriteLock => s.promotion.Some?
    case Switch =>
      && s.promotion.Some? && s.candidate.Some? && s.transaction.Some?
      && m.lock == Some(s.promotion.value.lock)
      && forall i :: 0 <= i < |Entries(m)| ==>
           var v := ViewAt(m, Entries(m)[i]); v.quarantine.None? && v.tombstone.None?
    case RemoveGeneration =>
      && s.promotion.Some? && s.candidate.None?
      && s.pendingCleanup != [] && UnreferencedGeneration(m, s.pendingCleanup[0])
    case PopCleanup =>
      && s.promotion.Some? && s.candidate.None?
      && s.pendingCleanup != [] && s.pendingCleanup[0] !in m.generations
    case ClearIntent => s.promotion.Some? && s.candidate.None? && s.pendingCleanup == []
    case SaveRuntime(runtime, _) =>
      && (runtime.ready ==> s.transaction.None? && s.promotion.None?)
      && (m.game.Some? ==> runtime.server == m.game.value)
    case RewriteConfig(_) => m.game.Some? && CONFIG_PATH in m.live
    case Operate(_) => true
  }

  /** What the code saw at the live path just before the step; true when no one else writes there. */
  predicate Undisturbed(m: Machine, ev: Event) {
    var s := m.state;
    match ev
    case Begin(j) =>
      && m.game.None?
      && forall i :: 0 <= i < |AllEntries(j)| ==>
        Get(m.live, AllEntries(j)[i].relativePath) == Bytes(AllEntries(j)[i].original)
    case MoveFile(index, move) =>
      index < |Entries(m)| ==>
      var e := Entries(m)[index];
      var v := ViewAt(m, e);
      if IsConfigIndex(m, index) then
        match move {
          case Quarantine => v.live == Bytes(e.original)
          case DropQuarantine => ModeOf(m).PromoteMode? || v.live.Some?
          case _ => true
        }
      else if ModeOf(m).RecoverMode? then NextMove(e, v) == Do(move)
      else move.Quarantine? ==> v.live == Bytes(e.original)
    case MarkApplied =>
      s.transaction.Some? ==>
      && (forall i :: 0 <= i < |s.transaction.value.entries| ==> ViewAt(m, Entries(m)[i]) == Installed(Entries(m)[i]))
      && (s.transaction.value.config.Some? ==> ViewAt(m, s.transaction.value.config.value).live.Some?)
    case FinishRecovery =>
      s.transaction.Some? ==>
      && (forall i :: 0 <= i < |s.transaction.value.entries| ==> ViewAt(m, Entries(m)[i]) == Original(Entries(m)[i]))
      && (s.transaction.value.config.Some? ==>
            var v := ViewAt(m, s.transaction.value.config.value); v.quarantine.Some? ==> v.live.Some?)
    case Operate(_) => false
    case _ => true
  }

  /** The server that runs, if there is one, is the recorded one. */
  predicate ServerRecorded(m: Machine) {
    m.game.Some? ==> m.state.runtime.server == m.game.value
  }

  // ---- Runs ----

  function Step(m: Machine, ev: Event): Machine {
    var s := m.state;
    match ev
    case Crash => m.(proc := Recovering)
    case Settle => m.(proc := Idle)
    case Fence => m.(game := None)
    case Launch(server) => m.(game := Some(server))
    case Stage(id, g) => m.(generations := m.generations[id := g])
    case Discard(id) => WithoutGeneration(m, id)
    case Begin(j) =>
      if j.generationID in m.generations
      then m.(state := s.(candidate := Some(CandidateRecord(m, j.generationID)), transaction := Some(j)),
        proc := InApply)
      else m
    case MoveFile(index, move) =>
      if index < |Entries(m)|
      then var e := Entries(m)[index]; WithView(m, e, After(e, ViewAt(m, e), move))
      else m
    case TearFile(index) =>
      if index < |Entries(m)|
      then
        var e := Entries(m)[index];
        WithView(m, e, View(Bytes(e.original), Bytes(e.original), ViewAt(m, e).tombstone)).(proc := Recovering)
      else m
    case MarkApplied =>
      if s.transaction.Some?
      then m.(state := s.(transaction := Some(s.transaction.value.(phase := AppliedPhase))), proc := Serving)
      else m
    case FinishRecovery => m.(state := RecoveredState(s), backups := KeptBackups(m))
    case Intend =>
      if s.candidate.Some? && s.candidate.value.id in m.generations
      then
        var id := s.candidate.value.id;
        m.(state := s.(promotion := Some(PromotionJournal(id, m.generations[id].lock)),
                       pendingCleanup := CleanupGenerationIDs(s.previous, s.failed)),
           proc := Recovering)
      else m
    case WriteLock => if s.promotion.Some? then m.(lock := Some(s.promotion.value.lock)) else m
    case Switch => if s.candidate.Some? then m.(state := SwitchedState(s)) else m
    case RemoveGeneration => if s.pendingCleanup != [] then WithoutGeneration(m, s.pendingCleanup[0]) else m
    case PopCleanup => if s.pendingCleanup != [] then m.(state := s.(pendingCleanup := s.pendingCleanup[1..])) else m
    case ClearIntent => m.(state := s.(promotion := None))
    case SaveRuntime(runtime, steamBuild) => m.(state := s.(runtime := runtime, steamBuild := steamBuild))
    case RewriteConfig(content) => m.(live := m.live[CONFIG_PATH := content])
    case Operate(files) => m.(live := files)
  }

  /** A run: every step enabled where it is taken. */
  ghost predicate Legal(m: Machine, run: seq<Event>)
    decreases |run|
  {
    run == [] || (Enabled(m, run[0]) && Legal(Step(m, run[0]), run[1..]))
  }

  /** A run in which no one else writes managed files. */
  ghost predicate Calm(m: Machine, run: seq<Event>)
    decreases |run|
  {
    run == [] || (Enabled(m, run[0]) && Undisturbed(m, run[0]) && Calm(Step(m, run[0]), run[1..]))
  }

  function Exec(m: Machine, run: seq<Event>): Machine
    decreases |run|
  {
    if run == [] then m else Exec(Step(m, run[0]), run[1..])
  }
}
