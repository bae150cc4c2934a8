/**
 * Application.Run: startup recovery, the fence against a server that still runs, the decision what
 * to launch, and rollback of a candidate that did not become ready.
 */
module Application {
  import opened Prelude
  import opened Packages
  import opened Records
  import opened Machine
  import opened Invariant
  import opened Convergence
  import opened Disks
  import opened Runs
  import opened Stores
  import opened Promotions
  import opened Applies
  import opened Staging
  import opened Locks
  import opened CalmDisks
  import opened Supervisors

  // ---- Startup ----

  /** The directories and the lock that recovery leaves: those of before, or of the promotion it finishes. */
  function RecoveredGenerations(m: Machine): map<string, Generation> {
    if m.state.promotion.Some? then Surviving(m.generations, m.state.pendingCleanup) else m.generations
  }

  function RecoveredLock(m: Machine): Option<PackageLock> {
    if m.state.promotion.Some? then Some(m.state.promotion.value.lock) else m.lock
  }

  /**
   * Recovery before anything else: a pending promotion is rolled forward, otherwise an interrupted
   * transaction is rolled back. With no fault and no outside write it succeeds exactly when the
   * artifacts are the journaled ones, or every entry can be recovered.
   */
  method StartupRecovery(d: Disk) returns (ok: bool)
    requires d.Valid()
    modifies d
    ensures d.Valid() && d.faults <= old(d.faults) && d.edits <= old(d.edits) && d.game == old(d.game)
    ensures ok ==>
      d.proc.Idle? && d.state.transaction.None? && d.state.promotion.None? && d.state == Destination(old(d.state))
    ensures ok ==> d.lock == RecoveredLock(old(d.M())) && d.generations == RecoveredGenerations(old(d.M()))
    ensures Unsaved(old(d.state), d.state)
    ensures d.edits == old(d.edits) && d.faults == old(d.faults) ==>
      (ok <==> if old(d.state).promotion.Some? then ArtifactsMatch(old(d.M())) else AllRecoverable(old(d.M())))
  {
    hide Grounded, ArtifactsMatch, AllRecoverable, RolledBack, Ledger, Surviving, Destination;
    ghost var m := d.M();
    LedgerNow(d);
    RollbackFrames(m);
    var r := RecoverInterruptedTransaction(d);
    RecoveryUnsaved(m, d.M());
    match r {
      case Recovered => return true;
      case RecoveryFailed => return false;
      case PendingPromotion(_) =>
        ok := ResumePromotion(d, m);
    }
  }

  /** Recovery saves no runtime fields. */
  lemma RecoveryUnsaved(m0: Machine, m: Machine)
    ensures RecoveryFrame(m0, m) ==> Unsaved(m0.state, m.state)
    ensures Destination(m.state) == Destination(m0.state) ==> Unsaved(m0.state, m.state)
  {
    DestinationUnsaved(m0.state);
    DestinationUnsaved(m.state);
    hide Destination;
  }

  /** The second half of startup recovery, for a pending promotion. */
  method ResumePromotion(d: Disk, ghost m: Machine) returns (ok: bool)
    requires d.Valid() && m.state.promotion.Some? && d.state == m.state && d.artifacts == m.artifacts
    requires d.generations == m.generations
    modifies d
    ensures d.Valid() && d.faults <= old(d.faults) && d.edits <= old(d.edits) && d.game == old(d.game)
    ensures ok ==>
      d.proc.Idle? && d.state.transaction.None? && d.state.promotion.None? && d.state == Destination(m.state)
    ensures ok ==> d.lock == RecoveredLock(m) && d.generations == RecoveredGenerations(m)
    ensures Unsaved(m.state, d.state)
    ensures d.edits == old(d.edits) && d.faults == old(d.faults) ==> (ok <==> ArtifactsMatch(m))
  {
    hide Grounded, ArtifactsMatch, AllRecoverable, RolledBack, Surviving;
    ghost var m1 := d.M();
    SameMatches(m, m1);
    var outcome := RecoverPromotion(d);
    RecoveryUnsaved(m1, d.M());
    if !outcome.PromotionCommitted? {
      return false;
    }
    PromotedIsIdle(m1, d.M());
    LedgerNow(d);
    RollbackFrames(d.M());
    ghost var m2 := d.M();
    hide Destination, Reconciled, Ledger;
    var r := RecoverInterruptedTransaction(d);
    RecoveryUnsaved(m2, d.M());
    ok := r.Recovered?;
  }

  lemma PromotedIsIdle(m0: Machine, m: Machine)
    requires Reconciled(m0, m) && m0.state.promotion.Some?
    requires m0.state.candidate.None? ==> m0.state.transaction.None?
    ensures m.state == Destination(m0.state) && m.state.promotion.None? && m.state.transaction.None?
    ensures m.lock == RecoveredLock(m0) && m.generations == RecoveredGenerations(m0)
  {
    hide Surviving;
  }

  datatype Inspection = NoProcess | LiveProcess(identity: ProcessIdentity) | InspectionFailed

  const NO_PROCESS := ProcessIdentity(0, 0)

  /** What an inspection of a process number shows: the server that runs, if it has that number. */
  function Seen(game: Option<Running>, pid: int, inspection: Inspection): Inspection {
    if inspection.InspectionFailed? then InspectionFailed
    else if game.Some? && game.value.pid == pid then LiveProcess(game.value)
    else inspection
  }

  /** The recorded server is known to be gone. */
  predicate Fenced(runtime: RuntimeState, inspection: Inspection) {
    if runtime.server == NO_PROCESS then !runtime.ready
    else
      && runtime.server.pid > 0 && runtime.server.startTicks != 0
      && match inspection
         case NoProcess => true
         case InspectionFailed => false
         case LiveProcess(live) => live.pid == runtime.server.pid && live.startTicks != 0 && live != runtime.server
  }

  /** That is: nothing was recorded, or the number is free or belongs to a process started at another time. */
  lemma FencedMeans(runtime: RuntimeState, seen: Inspection)
    ensures Fenced(runtime, seen) <==>
      || (runtime.server.pid == 0 && runtime.server.startTicks == 0 && !runtime.ready)
      || (&& runtime.server.pid > 0 && runtime.server.startTicks > 0
          && (|| seen.NoProcess?
              || (&& seen.LiveProcess? && seen.identity.pid == runtime.server.pid && seen.identity.startTicks > 0
                  && seen.identity.startTicks != runtime.server.startTicks)))
  {
  }

  /** A recorded server that runs is never taken to be gone. */
  lemma RunningIsNotFenced(runtime: RuntimeState, server: Running, inspection: Inspection)
    requires runtime.server == server
    ensures !Fenced(runtime, Seen(Some(server), runtime.server.pid, inspection))
  {
  }

  /**
   * fencePriorProcess, which gives the state back as it is now. It passes exactly if nothing was
   * recorded, or the number of the recorded server is free or belongs to a process started at
   * another time; it never passes while the recorded server runs, or cannot be inspected.
   */
  method FencePriorProcess(d: Disk, s: State, inspection: Inspection) returns (ok: bool, next: State)
    requires d.Valid() && s == d.state && ServerRecorded(d.M())
    modifies d
    ensures d.Valid() && d.faults <= old(d.faults) && d.edits <= old(d.edits)
    ensures d.M() == old(d.M()).(state := d.state, live := d.live)
    ensures d.edits == old(d.edits) ==> d.live - {CONFIG_PATH} == old(d.live) - {CONFIG_PATH}
    ensures Stripped(d.state) == Stripped(old(d.state))
    ensures d.state == old(d.state).(runtime := d.state.runtime)
    ensures ok ==> next == d.state && d.game.None? && !d.state.runtime.ready && d.state.runtime.server == NO_PROCESS
    ensures old(d.game).Some? ==> !ok && d.state == old(d.state)
    ensures var recorded := old(d.state).runtime.server;
      var seen := Seen(old(d.game), recorded.pid, inspection);
      && (recorded != ProcessIdentity(0, 0) && (seen.InspectionFailed? || seen == LiveProcess(recorded)) ==>
            !ok && d.state == old(d.state))
      && (recorded == ProcessIdentity(0, 0) ==> d.state == old(d.state) && (ok <==> !old(d.state).runtime.ready))
      && (ok || d.faults == old(d.faults) ==> (ok <==> Fenced(old(d.state).runtime, seen)))
  {
    hide Grounded, Stripped;
    FencedMeans(s.runtime, Seen(d.game, s.runtime.server.pid, inspection));
    var recorded := s.runtime.server;
    if recorded == NO_PROCESS {
      return !s.runtime.ready, s;
    }
    if recorded.pid <= 0 || recorded.startTicks == 0 {
      return false, s;
    }
    var seen := Seen(d.game, recorded.pid, inspection);
    match seen {
      case LiveProcess(live) =>
        if live.pid != recorded.pid || live.startTicks == 0 || live == recorded {
          return false, s;
        }
      case InspectionFailed => return false, s;
      case NoProcess =>
    }
    next := s.(runtime := s.runtime.(server := NO_PROCESS, ready := false, phase := "stopped"));
    RuntimeOnly(s, next.runtime, s.steamBuild);
    ok := SaveRuntimeState(d, next);
  }

  // ---- Launch ----

  /** The candidate was applied by this process and nothing is pending. */
  ghost predicate Candidacy(m: Machine, candidate: Option<StagedGeneration>) {
    Launchable(m, candidate) &&
    (candidate.Some? ==>
       && StagedMatches(m.generations, candidate.value) && m.state.candidate == Some(CandidateOf(candidate.value))
       && m.state.transaction.value.phase.AppliedPhase?)
  }

  /** Nothing is left to recover. */
  predicate AtRest(s: State) {
    s.transaction.None? && s.promotion.None?
  }

  datatype Exit =
    | ExitOk
    | ExitPreflight
    | ExitModUpdate
    | ExitSteam
    | ExitBackup
    | ExitReadiness
    | ExitShutdown
    | ExitServer(code: int)

  lemma SupervisedRecords(s0: State, s: State, candidate: Option<StagedGeneration>, outcome: PromotionCommitOutcome)
    requires Supervised(s0, s, candidate, outcome)
    ensures outcome.PromotionCommitted? && s0.candidate == Some(CandidateOf(candidate.value)) ==>
      && AtRest(s) && s.active == Some(CandidateOf(candidate.value).(status := ActiveStatus))
    ensures outcome.PromotionNotCommitted? && AtRest(s0) ==> AtRest(s)
    ensures outcome.PromotionNotCommitted? ==> s.promotion == s0.promotion && s.transaction == s0.transaction
  {
    if outcome.PromotionCommitted? {
      StrippedSame(Destination(IntendedState(s0, candidate.value)), s);
    } else if outcome.PromotionNotCommitted? {
      StrippedSame(s0, s);
    }
    hide Stripped;
  }

  /** Undoing a candidate: on a calm disk, with no fault, nothing is left. */
  method RollbackCandidate(d: Disk)
    requires d.Valid()
    modifies d
    ensures d.Valid() && d.faults <= old(d.faults) && d.edits <= old(d.edits)
    ensures !d.outside && d.faults == old(d.faults) && old(d.state).promotion.None? ==> AtRest(d.state)
    ensures d.game == old(d.game) && Unsaved(old(d.state), d.state)
  {
    hide Grounded, AllRecoverable, ArtifactsMatch, RolledBack, Destination;
    CalmDisk(d);
    ghost var m, edits := d.M(), d.edits;
    var ok := Rollback(d);
    RecoveryUnsaved(m, d.M());
    QuietIfCalm(d);
  }

  lemma QuietIfCalm(d: Disk)
    requires d.Valid()
    ensures !d.outside ==> d.edits == 0
  {
    hide Grounded;
  }

  /** What makes a server ready, on a disk that does not fail. */
  ghost predicate Startable(m: Machine, request: LaunchRequest, prepared: bool, server: Option<Running>,
                            events: seq<SupervisorEvent>) {
    && prepared && server.Some? && ComesReady(events, request.candidate.Some?)
    && (request.candidate.Some? ==> Promotable(m, request.candidate.value))
  }

  /**
   * launch. It ends well exactly when the server became ready, the candidate, if there is one, was
   * promoted, and the server ended cleanly with status 0. A candidate that does not become ready is
   * rolled back unless its promotion may have been committed. On a calm disk, with no fault, nothing
   * is left to recover.
   */
  method Launch(d: Disk, request: LaunchRequest, settings: bool, prepared: bool, server: Option<Running>,
                events: seq<SupervisorEvent>) returns (exit: Exit)
    requires d.Valid() && Candidacy(d.M(), request.candidate) && d.game.None?
    modifies d
    ensures d.Valid() && d.faults <= old(d.faults) && d.edits <= old(d.edits) && d.game.None?
    ensures exit.ExitOk? ==>
      && !d.state.runtime.ready && server.Some? && d.state.runtime.server == server.value
      && RunNoted(d.state, request.generation, request.steamBuild, old(d.state).runtime.degraded,
                  old(d.state).runtime.reason)
    ensures d.state.steamBuild == old(d.state).steamBuild || d.state.steamBuild == request.steamBuild
    ensures request.candidate.None? || exit.ExitOk? ==>
      KeepsGenerations(old(d.M()), d.M(), request.candidate,
                       if request.candidate.Some? then PromotionCommitted else PromotionNotCommitted)
    ensures exit.ExitOk? || (!d.outside && d.faults == old(d.faults)) ==> AtRest(d.state)
    ensures exit.ExitOk? && request.candidate.Some? ==>
      d.state.active == Some(CandidateOf(request.candidate.value).(status := ActiveStatus))
    ensures request.candidate.None? ==> Stripped(d.state) == Stripped(old(d.state))
    ensures exit.ExitServer? ==> exit.code != 0 && EndsCleanly(events, exit.code)
    ensures exit.ExitOk? ==> EndsCleanly(events, 0)
    ensures d.faults == old(d.faults) ==>
      (exit.ExitOk? <==> settings && Startable(old(d.M()), request, prepared, server, events) && EndsCleanly(events, 0))
  {
    hide Grounded, Supervised, Launchable, StagedMatches, Promotable, Stripped, Destination, EndsCleanly, ComesReady;
    ghost var m := d.M();
    CandidacyMeans(m, request.candidate);
    if !settings {
      if request.candidate.Some? {
        RollbackCandidate(d);
        return ExitReadiness;
      }
      return ExitPreflight;
    }
    if request.candidate.None? {
      UnpromotedRecords();
    }
    var result, failed, outcome, recorded, closed := Supervise(d, request, prepared, server, events);
    SupervisedRecords(m.state, d.state, request.candidate, outcome);
    if !result.ready {
      if request.candidate.Some? {
        if outcome.PromotionRecoveryRequired? || outcome.PromotionCommitted? {
          return ExitReadiness;
        }
        RollbackCandidate(d);
      }
      return ExitReadiness;
    }
    if request.candidate.Some? && outcome != PromotionCommitted {
      assert false;
    }
    if failed {
      return ExitShutdown;
    }
    OneEnd(events, result.exitCode);
    return if result.exitCode != 0 then ExitServer(result.exitCode) else ExitOk;
  }

  /** Without a candidate no record changes. */
  lemma UnpromotedRecords()
    ensures forall s0, s :: Supervised(s0, s, None, PromotionNotCommitted) ==> Stripped(s) == Stripped(s0)
  {
    hide Stripped;
  }

  lemma CandidacyMeans(m: Machine, candidate: Option<StagedGeneration>)
    requires Candidacy(m, candidate)
    ensures candidate.None? ==> AtRest(m.state)
    ensures candidate.Some? ==> m.state.promotion.None? && m.state.candidate == Some(CandidateOf(candidate.value))
  {
    hide StagedMatches;
  }

  // ---- What to launch ----

  /** The active record, the durable lock and the directory agree, and the lock is valid. */
  ghost predicate ActiveIsValid(m: Machine) {
    && m.state.active.Some? && m.lock.Some? && m.state.active.value.id != "" && m.state.active.value.id in m.generations
    && m.state.active.value.status.ActiveStatus? && ValidLock(m.lock.value)
    && m.state.active.value.lockDigest != NoDigest
    && StagedMatches(m.generations, ActiveValue(m))
  }

  function ActiveValue(m: Machine): StagedGeneration
    requires m.state.active.Some? && m.lock.Some? && m.state.active.value.id in m.generations
  {
    StagedGeneration(m.state.active.value, m.generations[m.state.active.value.id].manifest, m.lock.value)
  }

  /** loadActiveGeneration: the active record, its lock and its directory agree. */
  method LoadActive(d: Disk, s: State) returns (ok: bool, active: Option<StagedGeneration>)
    requires d.Valid() && s == d.state
    modifies d`faults
    ensures d.Valid() && d.M() == old(d.M()) && d.faults <= old(d.faults) && d.edits == old(d.edits)
    ensures ok <==> active.Some?
    ensures ok ==> ActiveIsValid(d.M()) && active == Some(ActiveValue(d.M()))
    ensures d.faults == old(d.faults) ==> (ok <==> ActiveIsValid(d.M()))
  {
    hide Grounded, StagedMatches, ValidLock;
    if s.active.None? {
      return false, None;
    }
    var fault := d.NextFault();
    if !fault.NoFault? || d.lock.None? {
      return false, None;
    }
    var record, lock := s.active.value, d.lock.value;
    if record.id == "" || !record.status.ActiveStatus? || record.lockDigest.NoDigest? ||
      record.lockDigest != lock.digest {
      MatchedDigest(d.generations, record, lock);
      return false, None;
    }
    var valid := ValidateManagedPackageLock(lock);
    if !valid || record.id !in d.generations {
      return false, None;
    }
    var staged := StagedGeneration(record, d.generations[record.id].manifest, lock);
    ok := OpenAndValidateStaged(d, staged);
    if !ok {
      return false, None;
    }
    ok := VerifyStagedOverlay(d, staged);
    active := if ok then Some(staged) else None;
  }

  lemma ActiveRecord(d: Disk)
    ensures ActiveIsValid(d.M()) ==> d.state.active == Some(ActiveValue(d.M()).record)
  {
  }

  lemma MatchedDigest(generations: map<string, Generation>, record: GenerationRecord, lock: PackageLock)
    ensures record.id in generations ==>
      var staged := StagedGeneration(record, generations[record.id].manifest, lock);
      StagedMatches(generations, staged) ==> record.lockDigest == lock.digest
  {
  }

  predicate InstalledExactly(live: map<string, string>, files: map<string, string>) {
    forall p :: p in files ==> Get(live, p) == Some(files[p])
  }

  /** verifyInstalledManagedFiles. */
  method VerifyInstalled(d: Disk, files: map<string, string>) returns (ok: bool)
    requires d.Valid()
    modifies d
    ensures d.Valid() && d.faults <= old(d.faults) && d.edits <= old(d.edits)
    ensures d.M() == old(d.M()).(live := d.live)
    ensures d.edits == old(d.edits) && d.game.None? ==> d.live == old(d.live)
    ensures d.edits == old(d.edits) && d.game.None? && d.faults == old(d.faults) ==>
      (ok <==> InstalledExactly(old(d.live), files))
  {
    hide Grounded, Ascending, Distinct;
    var paths := UnionManagedPaths(files, map[]);
    ok := InspectInventory(d, paths, files);
    InventoryOf(paths, files, old(d.live));
  }

  lemma InventoryOf(paths: seq<string>, files: map<string, string>, live: map<string, string>)
    requires forall p :: p in paths <==> p in files
    ensures InventoryMatches(live, paths, files) <==> InstalledExactly(live, files)
  {
    if InventoryMatches(live, paths, files) {
      forall p | p in files
        ensures Get(live, p) == Some(files[p])
      {
        var i :| 0 <= i < |paths| && paths[i] == p;
      }
    } else {
      var i :| 0 <= i < |paths| && Get(live, paths[i]) != Get(files, paths[i]);
      assert paths[i] in paths;
    }
  }

  /** validateKnownGoodSteam: the installed build is the recorded one, and its files pass validation. */
  predicate KnownGoodSteam(s: State, installedBuild: string, validates: bool) {
    installedBuild != "" && s.steamBuild != "" && s.steamBuild == installedBuild && validates
  }

  function DegradedRuntime(active: StagedGeneration, reason: string, steamBuild: string): RuntimeState {
    RuntimeState("degraded", false, true, reason, NO_PROCESS, active.record.id, steamBuild)
  }

  /**
   * recordFallback: the known-good installation is verified and recorded as degraded, in the state
   * loaded when the controller started. No one wrote another one since.
   */
  method RecordFallback(d: Disk, s: State, active: Option<StagedGeneration>, validates: bool, reason: string,
                        steamBuild: string)
      returns (ok: bool)
    requires d.Valid() && AtRest(d.state) && s == d.state && d.game.None?
    modifies d
    ensures d.Valid() && d.faults <= old(d.faults) && d.edits <= old(d.edits)
    ensures d.M() == old(d.M()).(state := d.state, live := d.live) && AtRest(d.state)
    ensures d.state.steamBuild == old(d.state).steamBuild
    ensures ok ==> active.Some? && steamBuild != "" && old(d.state).steamBuild == steamBuild && validates
    ensures ok ==>
      && d.state == old(d.state).(runtime := d.state.runtime)
      && var runtime := d.state.runtime;
         && runtime.phase == "degraded" && !runtime.ready && runtime.degraded && runtime.reason == reason
         && runtime.server == ProcessIdentity(0, 0)
         && runtime.generation == active.value.record.id && runtime.steamBuild == steamBuild
    ensures d.faults == old(d.faults) && d.edits == old(d.edits) ==>
      (ok <==> && active.Some? && InstalledExactly(old(d.live), active.value.manifest.files)
               && steamBuild != "" && old(d.state).steamBuild == steamBuild && validates)
    ensures d.faults == old(d.faults) && !ok ==> d.state == old(d.state)
    ensures Stripped(d.state) == Stripped(old(d.state))
  {
    hide Grounded, Stripped;
    if active.None? {
      return false;
    }
    ok := VerifyInstalled(d, active.value.manifest.files);
    if !ok || !KnownGoodSteam(s, steamBuild, validates) {
      return false;
    }
    var runtime := DegradedRuntime(active.value, reason, steamBuild);
    RuntimeOnly(s, runtime, s.steamBuild);
    ok := SaveRuntimeState(d, s.(runtime := runtime));
  }

  /** clearDegradedRuntime. */
  method ClearDegraded(d: Disk) returns (ok: bool)
    requires d.Valid() && !d.state.runtime.ready && d.game.None?
    modifies d
    ensures d.Valid() && d.faults <= old(d.faults) && d.edits <= old(d.edits)
    ensures d.M() == old(d.M()).(state := d.state, live := d.live) && Stripped(d.state) == Stripped(old(d.state))
    ensures if ok then d.state == old(d.state).(runtime := old(d.state).runtime.(degraded := false, reason := ""))
            else d.faults < old(d.faults)
    ensures d.state.steamBuild == old(d.state).steamBuild
  {
    hide Grounded, Stripped;
    var s;
    ok, s := d.Load();
    if !ok {
      return false;
    }
    if !s.runtime.degraded && s.runtime.reason == "" {
      return true;
    }
    var cleared := s.runtime.(degraded := false, reason := "");
    RuntimeOnly(s, cleared, s.steamBuild);
    ok := SaveRuntimeState(d, s.(runtime := cleared));
  }

  // ---- Run ----

  /** What Stage would be given: an identifier, a lock, the extracted files and the template. */
  datatype Offer = Offer(id: string, lock: PackageLock, overlay: map<string, string>, template: Option<string>)

  datatype SteamOutcome = SteamReady(build: string) | SteamUnavailable(reason: string, backup: bool) | SteamBroken

  /** The configuration, and the answers of everything outside this model, for one lifetime. */
  datatype Lifetime = Lifetime(
    modsEnabled: bool,
    updateMods: bool,
    inspection: Inspection,
    offer: Option<Offer>,           // None: resolution or download failed
    steam: SteamOutcome,
    installedBuild: string,
    validates: bool,                // the installed Steam build passes validation
    settings: bool,
    prepared: bool,
    server: Option<Running>,
    events: seq<SupervisorEvent>)

  // ---- When a lifetime ends well ----

  /** The server gets ready, promotion included, and ends cleanly with status 0. */
  predicate ServesWell(life: Lifetime, promoting: bool) {
    && life.settings && life.prepared && life.server.Some?
    && ComesReady(life.events, promoting) && EndsCleanly(life.events, 0)
  }

  /** What is active is installed and known to be good, and serves well. */
  predicate FallbackEndsWell(m: Machine, life: Lifetime, active: Option<StagedGeneration>) {
    && active.Some? && InstalledExactly(m.live, active.value.manifest.files)
    && life.installedBuild != "" && m.state.steamBuild == life.installedBuild && life.validates
    && ServesWell(life, false)
  }

  /** Every path is as the active inventory says: managed files are there, and the places of new ones are free. */
  ghost predicate Installable(m: Machine, files: map<string, string>) {
    var prior := FilesOf(m, m.state.active);
    forall p :: p in prior || p in files ==> Get(m.live, p) == Get(prior, p)
  }

  /** With updates: the offer is staged, applied, promoted and serves well, or what is active has to do. */
  ghost predicate UpdateEndsWell(m: Machine, life: Lifetime, active: Option<StagedGeneration>) {
    if life.offer.None? then FallbackEndsWell(m, life, active)
    else
      var offer := life.offer.value;
      if !Stageable(m.generations, offer.id, offer.lock, offer.overlay, offer.template) then
        FallbackEndsWell(m, life, active)
      else
        match life.steam
        case SteamReady(_) => Installable(m, offer.overlay) && ServesWell(life, true)
        case SteamUnavailable(_, _) => FallbackEndsWell(m, life, active)
        case SteamBroken => false
  }

  /** Without updates. */
  predicate AsIsEndsWell(m: Machine, life: Lifetime, active: Option<StagedGeneration>) {
    && (life.modsEnabled ==>
          && active.Some? && InstalledExactly(m.live, active.value.manifest.files)
          && life.installedBuild != "" && m.state.steamBuild == life.installedBuild && life.validates)
    && match life.steam
       case SteamReady(_) => ServesWell(life, false)
       case SteamUnavailable(_, _) => FallbackEndsWell(m, life, active)
       case SteamBroken => false
  }

  /** What a lifetime that starts, behind the fence, from `m` comes to on a disk that does not fail. */
  ghost predicate EndsWell(m: Machine, life: Lifetime) {
    var active := if life.modsEnabled && ActiveIsValid(m) then Some(ActiveValue(m)) else None;
    if life.modsEnabled && life.updateMods then UpdateEndsWell(m, life, active) else AsIsEndsWell(m, life, active)
  }

  /**
   * Where the controller stands behind recovery and the fence, whatever the last lifetime left:
   * records, lock and directories are at the destination, and the files of the active generation are
   * installed among the unmanaged ones.
   */
  function Restarted(world: World, m: Machine): Machine {
    var w := m.(state := Destination(m.state), lock := RecoveredLock(m), generations := RecoveredGenerations(m));
    w.(live := world + FilesOf(w, w.state.active), artifacts := map[], proc := Idle, game := None)
  }

  /** The machine is such a one, as far as anything that follows looks at it. */
  predicate StandsAs(m: Machine, w: Machine) {
    && m.lock == w.lock && m.generations == w.generations
    && Stripped(m.state) == Stripped(w.state) && m.state.steamBuild == w.state.steamBuild
  }

  /** The fence passes, and the lifetime ends well from where recovery has to bring the durable state. */
  ghost predicate StartsWell(m: Machine, world: World, life: Lifetime) {
    && Fenced(m.state.runtime, Seen(m.game, m.state.runtime.server.pid, life.inspection))
    && EndsWell(Restarted(world, m), life)
  }

  /** How a lifetime ends does not depend on the configuration file or on the runtime record. */
  lemma EndsWellAlike(m: Machine, w: Machine, life: Lifetime)
    requires StandsAs(m, w) && GenerationsOk(m) && RecordsOk(m)
    requires forall p :: p != CONFIG_PATH ==> Get(m.live, p) == Get(w.live, p)
    ensures EndsWell(m, life) <==> EndsWell(w, life)
  {
    hide Stripped, ServesWell, Stageable, InstalledExactly, Installable, GenerationsOk, RecordsOk, StandsAs,
      StagedMatches, ValidLock;
    ActiveAlike(m, w);
    FallbackAlike(m, w, life);
    if life.offer.Some? && Stageable(m.generations, life.offer.value.id, life.offer.value.lock,
                                     life.offer.value.overlay, life.offer.value.template) {
      OfferAlike(m, w, life.offer.value);
    }
    StandsAlike(m, w);
  }

  lemma StandsAlike(m: Machine, w: Machine)
    requires StandsAs(m, w)
    ensures m.generations == w.generations && m.state.steamBuild == w.state.steamBuild
    ensures m.state.active == w.state.active && m.lock == w.lock
  {
    StrippedSame(m.state, w.state);
    hide Stripped;
  }

  lemma ActiveAlike(m: Machine, w: Machine)
    requires StandsAs(m, w)
    ensures ActiveIsValid(m) <==> ActiveIsValid(w)
    ensures ActiveIsValid(m) ==> ActiveValue(m) == ActiveValue(w)
  {
    StandsAlike(m, w);
    hide StandsAs, StagedMatches, ValidLock;
  }

  /** What is active and its installation. */
  lemma FallbackAlike(m: Machine, w: Machine, life: Lifetime)
    requires StandsAs(m, w) && GenerationsOk(m) && RecordsOk(m)
    requires forall p :: p != CONFIG_PATH ==> Get(m.live, p) == Get(w.live, p)
    ensures ActiveIsValid(m) ==>
      (InstalledExactly(m.live, ActiveValue(m).manifest.files) <==>
       InstalledExactly(w.live, ActiveValue(m).manifest.files))
  {
    hide StandsAs, StagedMatches, ValidLock, GenerationsOk, RecordsOk;
    if ActiveIsValid(m) {
      ActiveFiles(m);
      NoConfigAmong(m, map[]);
      assert CONFIG_PATH !in ActiveValue(m).manifest.files;
    }
  }

  lemma OfferAlike(m: Machine, w: Machine, offer: Offer)
    requires StandsAs(m, w) && GenerationsOk(m) && RecordsOk(m)
    requires forall p :: p != CONFIG_PATH ==> Get(m.live, p) == Get(w.live, p)
    requires Stageable(m.generations, offer.id, offer.lock, offer.overlay, offer.template)
    ensures Installable(m, offer.overlay) <==> Installable(w, offer.overlay)
  {
    hide StandsAs, GenerationsOk, RecordsOk, ValidLock, Applies.ManagedPaths;
    NoConfigAmong(m, offer.overlay);
    SameActiveFiles(m, w);
    hide FilesOf;
  }

  /** The Steam build a lifetime that ended well has served: the one prepared, or for lack of it the installed one. */
  predicate BuildServed(life: Lifetime, build: string) {
    if life.steam.SteamReady? && !(life.modsEnabled && life.updateMods) then build == life.steam.build
    else build == life.installedBuild || (life.steam.SteamReady? && build == life.steam.build)
  }

  lemma CandidacyStill(m: Machine, w: Machine, candidate: Option<StagedGeneration>)
    requires Candidacy(m, candidate) && Stripped(w.state) == Stripped(m.state) &&
      w == m.(state := w.state, live := w.live)
    ensures Candidacy(w, candidate)
    ensures candidate.Some? ==> (Promotable(w, candidate.value) <==> Promotable(m, candidate.value))
  {
    LaunchableStill(m, w, candidate);
    StrippedSame(m.state, w.state);
    hide Stripped, StagedMatches, ArtifactsMatch;
  }

  lemma AppliedIsCandidate(s: State, m: Machine, staged: StagedGeneration)
    requires AppliedFrom(s, m, staged) && StagedMatches(m.generations, staged) && s.promotion.None?
    ensures Candidacy(m, Some(staged)) && m.state.runtime == s.runtime
  {
    hide StagedMatches, JournalOf;
  }

  lemma AppliedIsPromotable(s: State, m: Machine, staged: StagedGeneration)
    requires AppliedFrom(s, m, staged) && StagedMatches(m.generations, staged) && s.promotion.None?
    ensures ArtifactsMatch(m) ==> Promotable(m, staged)
  {
    hide StagedMatches, JournalOf, ArtifactsMatch;
  }

  lemma NothingIsCandidate(m: Machine)
    requires AtRest(m.state) && !m.proc.InApply?
    ensures Candidacy(m, None)
  {
  }

  /** What a run that ended well leaves of what it ran, and of whether that was for lack of something better. */
  predicate RunNoted(s: State, generation: string, build: string, degraded: bool, reason: string) {
    && s.steamBuild == build && s.runtime.steamBuild == build && s.runtime.generation == generation
    && s.runtime.degraded == degraded && s.runtime.reason == reason
  }

  /**
   * What a lifetime that ended well leaves noted: the generation and the build it ran, and that it was
   * degraded exactly if it ran what was installed for lack of an update, of mods or of Steam.
   */
  predicate Noted(life: Lifetime, s: State) {
    && s.runtime.steamBuild == s.steamBuild
    && (if life.modsEnabled then s.active.Some? && s.runtime.generation == s.active.value.id
        else s.runtime.generation == "")
    && (if s.runtime.degraded then
          && s.steamBuild == life.installedBuild
          && (|| (life.steam.SteamUnavailable? && s.runtime.reason == life.steam.reason)
              || (life.modsEnabled && life.updateMods && s.runtime.reason == "mod update failed"))
        else
          && life.steam.SteamReady? && s.steamBuild == life.steam.build && s.runtime.reason == ""
          && (life.modsEnabled && life.updateMods ==>
                life.offer.Some? && s.active.Some? && s.active.value.id == life.offer.value.id))
  }

  lemma NotedBuild(life: Lifetime, s: State)
    requires Noted(life, s)
    ensures BuildServed(life, s.steamBuild)
  {
  }

  /** The server of the lifetime is recorded, and no longer ready. */
  predicate ServerNamed(s: State, life: Lifetime) {
    !s.runtime.ready && life.server.Some? && s.runtime.server == life.server.value
  }

  /** The last part of a normal start, with a candidate or with what is active. */
  method ClearAndLaunch(d: Disk, life: Lifetime, candidate: Option<StagedGeneration>, generation: string, build: string)
      returns (exit: Exit)
    requires d.Valid() && Candidacy(d.M(), candidate) && !d.state.runtime.ready && d.game.None?
    modifies d
    ensures d.Valid() && d.faults <= old(d.faults) && d.edits <= old(d.edits) && d.game.None?
    ensures exit.ExitOk? ==> RunNoted(d.state, generation, build, false, "") && ServerNamed(d.state, life)
    ensures d.state.steamBuild == old(d.state).steamBuild || d.state.steamBuild == build
    ensures candidate.None? || exit.ExitOk? ==>
      KeepsGenerations(old(d.M()), d.M(), candidate,
                       if candidate.Some? then PromotionCommitted else PromotionNotCommitted)
    ensures exit.ExitOk? || (!d.outside && d.faults == old(d.faults)) ==> AtRest(d.state)
    ensures exit.ExitOk? && candidate.Some? ==>
      d.state.active == Some(CandidateOf(candidate.value).(status := ActiveStatus))
    ensures candidate.None? ==> Stripped(d.state) == Stripped(old(d.state))
    ensures d.faults == old(d.faults) ==>
      (exit.ExitOk? <==>
        ServesWell(life, candidate.Some?) && (candidate.Some? ==> Promotable(old(d.M()), candidate.value)))
  {
    hide Grounded, Candidacy, Stripped, Promotable, ComesReady, EndsCleanly;
    ghost var m := d.M();
    var ok := ClearDegraded(d);
    CandidacyStill(m, d.M(), candidate);
    if !ok {
      if candidate.Some? {
        RollbackCandidate(d);
        return ExitReadiness;
      }
      return ExitPreflight;
    }
    exit := Launch(d, LaunchRequest(generation, build, candidate), life.settings, life.prepared, life.server,
      life.events);
  }

  /** Application of a staged candidate, and its launch; whatever fails before is rolled back and discarded. */
  method ApplyAndLaunch(d: Disk, life: Lifetime, staged: StagedGeneration, build: string) returns (exit: Exit)
    requires d.Valid() && AtRest(d.state) && d.game.None? && !d.state.runtime.ready
    requires NeverApplied(d.M(), staged.record.id) && |Split(staged.record.id, '/')| == 1
    modifies d
    ensures d.Valid() && d.faults <= old(d.faults) && d.edits <= old(d.edits) && d.game.None?
    ensures exit.ExitOk? || (!d.outside && d.faults == old(d.faults)) ==> AtRest(d.state)
    ensures exit.ExitOk? ==> d.state.active == Some(CandidateOf(staged).(status := ActiveStatus))
    ensures exit.ExitOk? ==> RunNoted(d.state, staged.record.id, build, false, "") && ServerNamed(d.state, life)
    ensures exit.ExitOk? && ValidLock(staged.lock) ==> ActiveIsValid(d.M())
    ensures d.state.steamBuild == old(d.state).steamBuild || d.state.steamBuild == build
    ensures !d.outside && d.faults == old(d.faults) ==>
      (exit.ExitOk? <==> Applicable(old(d.M()), staged) && ServesWell(life, true))
  {
    hide Grounded, NeverApplied, StagedMatches, Candidacy, Swapped, Applicable, AppliedFrom, Stopped, Split,
      Promotable, ArtifactsMatch, ServesWell, ValidLock, ActiveIsValid, ServerNamed;
    ghost var s := d.state;
    QuietIfCalm(d);
    var ok := Apply(d, staged);
    ApplyUnsaved(s, d.M(), staged);
    QuietIfCalm(d);
    CalmDisk(d);
    if !ok {
      RollbackCandidate(d);
      ok := Staging.Discard(d, staged);
      return ExitReadiness;
    }
    AppliedIsCandidate(s, d.M(), staged);
    AppliedIsPromotable(s, d.M(), staged);
    ghost var m := d.M();
    exit := ClearAndLaunch(d, life, Some(staged), staged.record.id, build);
    if exit.ExitOk? {
      PromotedIsValid(d, m, staged);
    }
  }

  /** Apply saves no runtime fields. */
  lemma ApplyUnsaved(s: State, m: Machine, staged: StagedGeneration)
    requires AtRest(s)
    ensures AppliedFrom(Settling(s), m, staged) || Stopped(Settling(s), m, staged) ==>
      Unsaved(s, m.state) && m.state.promotion.None?
  {
    hide JournalOf;
  }

  /** A staged generation that was promoted is a valid active one. */
  lemma PromotedIsValid(d: Disk, m0: Machine, staged: StagedGeneration)
    requires d.Valid() && StagedMatches(m0.generations, staged)
    requires KeepsGenerations(m0, d.M(), Some(staged), PromotionCommitted)
    requires d.state.active == Some(CandidateOf(staged).(status := ActiveStatus))
    ensures ValidLock(staged.lock) ==> ActiveIsValid(d.M())
  {
    hide Grounded, ActiveIsValid, StagedMatches, KeepsGenerations, ConsistentGeneration, IsName;
    ActiveDirectory(d);
    GenerationConsistent(d, staged.record.id);
    PromotedMatches(m0, d.M(), staged);
  }

  lemma PromotedMatches(m0: Machine, m: Machine, staged: StagedGeneration)
    requires StagedMatches(m0.generations, staged) && KeepsGenerations(m0, m, Some(staged), PromotionCommitted)
    requires m.state.active == Some(CandidateOf(staged).(status := ActiveStatus))
    requires staged.record.id in m.generations
    requires ConsistentGeneration(staged.record.id, m.generations[staged.record.id])
    ensures ValidLock(staged.lock) ==> ActiveIsValid(m)
  {
    hide ValidLock, HasRuntimeFiles;
    NoEmptyName();
  }

  lemma NoEmptyName()
    ensures !IsName("")
  {
  }

  /** What is known to be good is launched, degraded, instead of what could not be prepared. */
  method FallBack(d: Disk, life: Lifetime, s: State, active: Option<StagedGeneration>,
                  guarded: Option<StagedGeneration>,
                  reason: string, failure: Exit) returns (exit: Exit)
    requires d.Valid() && AtRest(d.state) && d.proc.Idle? && !failure.ExitOk? && s == d.state && d.game.None?
    requires guarded.Some? ==> |Split(guarded.value.record.id, '/')| == 1
    modifies d
    ensures d.Valid() && d.faults <= old(d.faults) && d.edits <= old(d.edits) && d.game.None?
    ensures exit.ExitOk? ==>
      && active.Some? && ServerNamed(d.state, life)
      && RunNoted(d.state, active.value.record.id, life.installedBuild, true, reason)
    ensures exit.ExitOk? && ActiveIsValid(old(d.M())) ==> ActiveIsValid(d.M())
    ensures d.state.steamBuild == old(d.state).steamBuild || d.state.steamBuild == life.installedBuild
    ensures exit.ExitOk? || (!d.outside && d.faults == old(d.faults)) ==> AtRest(d.state)
    ensures Stripped(d.state) == Stripped(old(d.state)) && d.state.active == old(d.state).active
    ensures !d.outside && d.faults == old(d.faults) ==>
      (exit.ExitOk? <==>
         && FallbackEndsWell(old(d.M()), life, active)
         && (guarded.Some? ==> Discardable(old(d.state), guarded.value.record.id)))
  {
    hide Grounded, StagedMatches, Candidacy, Split, Stripped, ComesReady, EndsCleanly, InstalledExactly, IsRelativePath,
      IsReferenced, ActiveIsValid;
    ghost var m0 := d.M();
    SameActive();
    QuietIfCalm(d);
    var ok := RecordFallback(d, s, active, life.validates, reason, life.installedBuild);
    QuietIfCalm(d);
    SameReferences(s, d.state);
    ghost var m := d.M();
    StillValid(m0, m);
    if guarded.Some? {
      var discarded := Staging.Discard(d, guarded.value);
      if ok && !discarded {
        return ExitModUpdate;
      }
    }
    if !ok {
      return failure;
    }
    NothingIsCandidate(d.M());
    StillValid(m, d.M());
    ghost var w := d.M();
    exit := Launch(d, LaunchRequest(active.value.record.id, life.installedBuild, None), life.settings, life.prepared,
      life.server, life.events);
    StillValid(w, d.M());
  }

  /** A valid active generation stays one while its record, its lock and its directory do. */
  lemma StillValid(m: Machine, w: Machine)
    requires w.lock == m.lock && Stripped(w.state) == Stripped(m.state)
    requires forall id :: id in m.generations && IsReferenced(m.state, id) ==>
      Get(w.generations, id) == Get(m.generations, id)
    ensures ActiveIsValid(m) ==> ActiveIsValid(w)
  {
    StrippedSame(m.state, w.state);
    hide Stripped, StagedMatches, ValidLock;
    if ActiveIsValid(m) {
      assert IsReferenced(m.state, m.state.active.value.id);
      assert ActiveValue(w) == ActiveValue(m);
      SameStaged(m.generations, w.generations, ActiveValue(m));
    }
  }

  lemma SameStaged(a: map<string, Generation>, b: map<string, Generation>, staged: StagedGeneration)
    requires StagedMatches(a, staged) && Get(a, staged.record.id) == Get(b, staged.record.id)
    ensures StagedMatches(b, staged)
  {
  }

  /** What Discard removes when nothing fails. */
  predicate Discardable(s: State, id: string) {
    IsRelativePath(id) && !IsReferenced(s, id)
  }

  lemma SameReferences(s: State, t: State)
    requires Stripped(s) == Stripped(t)
    ensures forall id :: IsReferenced(s, id) <==> IsReferenced(t, id)
  {
    StrippedSame(s, t);
    hide Stripped;
  }

  lemma SameActive()
    ensures forall s, t :: Stripped(s) == Stripped(t) ==> s.active == t.active
  {
  }

  /** A start that stages what was resolved. */
  method UpdateAndLaunch(d: Disk, life: Lifetime, s: State, active: Option<StagedGeneration>) returns (exit: Exit)
    requires d.Valid() && AtRest(d.state) && d.proc.Idle? && d.game.None? && !d.state.runtime.ready && s == d.state
    requires life.offer.Some? ==> IsName(life.offer.value.id)
    requires active.Some? ==> d.state.active == Some(active.value.record) && ActiveIsValid(d.M())
    modifies d
    ensures d.Valid() && d.faults <= old(d.faults) && d.edits <= old(d.edits) && d.game.None?
    ensures exit.ExitOk? ==> ActiveIsValid(d.M()) && ServerNamed(d.state, life)
    ensures exit.ExitOk? || (!d.outside && d.faults == old(d.faults)) ==> AtRest(d.state)
    ensures exit.ExitOk? ==> d.state.active.Some?
    ensures exit.ExitOk? ==>
      || (&& active.Some? && Stripped(d.state) == Stripped(old(d.state)) && d.state.active == old(d.state).active
          && RunNoted(d.state, active.value.record.id, life.installedBuild, true, d.state.runtime.reason)
          && (|| d.state.runtime.reason == "mod update failed"
              || (life.steam.SteamUnavailable? && d.state.runtime.reason == life.steam.reason)))
      || (&& life.offer.Some? && d.state.active.value.id == life.offer.value.id && life.steam.SteamReady?
          && RunNoted(d.state, life.offer.value.id, life.steam.build, false, ""))
    ensures !d.outside && d.faults == old(d.faults) ==> (exit.ExitOk? <==> UpdateEndsWell(old(d.M()), life, active))
  {
    hide Grounded, StagedMatches, NeverApplied, Stageable, IsRelativePath, Split, StagedContent, Stripped, ServesWell,
      Installable, Applicable, Discardable, ActiveIsValid, ServerNamed, FallbackEndsWell, ValidLock, Ledger;
    QuietIfCalm(d);
    if life.offer.None? {
      exit := FallBack(d, life, s, active, None, "mod update failed", ExitModUpdate);
      return;
    }
    ghost var m := d.M();
    LedgerNow(d);
    var offer := life.offer.value;
    var ok, staged := Staging.Stage(d, offer.id, offer.lock, offer.overlay, offer.template);
    QuietIfCalm(d);
    SameFallback(m, d.M(), life, active);
    StagedBeside(m, d.M());
    if !ok {
      exit := FallBack(d, life, s, active, None, "mod update failed", ExitModUpdate);
      return;
    }
    StagedIsDiscardable(d.M(), offer.id);
    match life.steam {
      case SteamReady(build) =>
        if !d.outside && d.faults == old(d.faults) {
          StagedIsApplicable(m, d.M(), staged, offer);
        }
        exit := ApplyAndLaunch(d, life, staged, build);
      case SteamUnavailable(reason, backup) =>
        exit := FallBack(d, life, s, active, Some(staged), reason, if backup then ExitBackup else ExitSteam);
      case SteamBroken =>
        ok := Staging.Discard(d, staged);
        return ExitSteam;
    }
  }

  lemma StagedBeside(m: Machine, w: Machine)
    requires w.lock == m.lock && w.state == m.state
    requires forall id :: id in m.generations ==> Get(w.generations, id) == Get(m.generations, id)
    ensures ActiveIsValid(m) ==> ActiveIsValid(w)
  {
    StillValid(m, w);
    hide ActiveIsValid;
  }

  lemma SameFallback(m: Machine, w: Machine, life: Lifetime, active: Option<StagedGeneration>)
    requires w.state == m.state
    ensures w.live == m.live ==> (FallbackEndsWell(w, life, active) <==> FallbackEndsWell(m, life, active))
  {
  }

  lemma StagedIsDiscardable(m: Machine, id: string)
    requires IsName(id) && NeverApplied(m, id)
    ensures Discardable(m.state, id)
  {
    hide IsRelativePath, IsReferenced;
  }

  /** What was staged can be applied exactly if its files could be installed before. */
  lemma StagedIsApplicable(m: Machine, w: Machine, staged: StagedGeneration, offer: Offer)
    requires Ledger(m) && AtRest(m.state) && staged.manifest.files == offer.overlay && staged.record.id == offer.id
    requires Stageable(m.generations, offer.id, offer.lock, offer.overlay, offer.template)
    requires StagedMatches(w.generations, staged) && w.state == m.state && w.live == m.live
    requires w.generations == m.generations
      || w.generations ==
           m.generations[offer.id := StagedContent(offer.id, offer.lock, offer.overlay, offer.template.value)]
    ensures Applicable(w, staged) <==> Installable(m, offer.overlay)
  {
    hide ValidLock, Applies.ManagedPaths, HasRuntimeFiles, JournalPart, CleanupOk, LockOk, ProcOk,
      ConsistentGeneration, StagedContent;
    assert FilesOf(w, w.state.active) == FilesOf(m, m.state.active);
  }

  /** A start without updates: what is active must be installed exactly, or no mods are managed at all. */
  method LaunchAsIs(d: Disk, life: Lifetime, s: State, active: Option<StagedGeneration>) returns (exit: Exit)
    requires d.Valid() && AtRest(d.state) && d.proc.Idle? && d.game.None? && !d.state.runtime.ready && s == d.state
    modifies d
    ensures d.Valid() && d.faults <= old(d.faults) && d.edits <= old(d.edits) && d.game.None?
    ensures exit.ExitOk? ==> ServerNamed(d.state, life)
    ensures exit.ExitOk? ==>
      var generation := if active.Some? then active.value.record.id else "";
      match life.steam
      case SteamReady(build) => RunNoted(d.state, generation, build, false, "")
      case SteamUnavailable(reason, _) =>
        active.Some? && RunNoted(d.state, generation, life.installedBuild, true, reason)
      case SteamBroken => false
    ensures exit.ExitOk? && ActiveIsValid(old(d.M())) ==> ActiveIsValid(d.M())
    ensures exit.ExitOk? || (!d.outside && d.faults == old(d.faults)) ==> AtRest(d.state)
    ensures exit.ExitOk? && life.modsEnabled ==> active.Some?
    ensures Stripped(d.state) == Stripped(old(d.state)) && d.state.active == old(d.state).active
    ensures !d.outside && d.faults == old(d.faults) ==> (exit.ExitOk? <==> AsIsEndsWell(old(d.M()), life, active))
  {
    hide Grounded, Candidacy, Stripped, ServesWell, InstalledExactly, Discardable, ActiveIsValid, ServerNamed;
    SameActive();
    QuietIfCalm(d);
    ghost var m := d.M();
    if life.modsEnabled {
      if active.None? {
        return ExitModUpdate;
      }
      var ok := VerifyInstalled(d, active.value.manifest.files);
      if !ok {
        return ExitModUpdate;
      }
      if !KnownGoodSteam(s, life.installedBuild, life.validates) {
        return ExitSteam;
      }
    }
    QuietIfCalm(d);
    SameFallback(m, d.M(), life, active);
    StagedBeside(m, d.M());
    match life.steam {
      case SteamReady(build) =>
        NothingIsCandidate(d.M());
        ghost var w := d.M();
        exit := ClearAndLaunch(d, life, None, if active.Some? then active.value.record.id else "", build);
        StillValid(w, d.M());
      case SteamUnavailable(reason, backup) =>
        exit := FallBack(d, life, s, active, None, reason, if backup then ExitBackup else ExitSteam);
      case SteamBroken => return ExitSteam;
    }
  }

  /** The start of Run: recovery, the state, and the fence. */
  method RecoverAndFence(d: Disk, inspection: Inspection) returns (ok: bool, s: State)
    requires d.Valid() && ServerRecorded(d.M())
    modifies d
    ensures d.Valid() && d.faults <= old(d.faults) && d.edits <= old(d.edits)
    ensures ok ==> s == d.state && d.proc.Idle? && AtRest(d.state) && d.game.None? && !d.state.runtime.ready
    ensures ok ==>
      Stripped(d.state) == Stripped(Destination(old(d.state))) && d.state.steamBuild == old(d.state).steamBuild
    ensures ok ==> StandsAs(d.M(), Restarted(d.world, old(d.M())))
    ensures ok && !d.outside ==> Inv(d.world, d.M())
    ensures !d.outside && d.faults == old(d.faults) ==> AtRest(d.state)
    ensures d.game == old(d.game) && (old(d.game).Some? ==> !ok && d.state.runtime == old(d.state).runtime)
    ensures old(d.state).runtime.server != ProcessIdentity(0, 0) && inspection.InspectionFailed? ==> !ok
    ensures !d.outside && d.faults == old(d.faults) ==>
      (ok <==> Fenced(old(d.state).runtime, Seen(old(d.game), old(d.state).runtime.server.pid, inspection)))
  {
    hide Grounded, ArtifactsMatch, AllRecoverable, Destination, Stripped, Inv, StandsAs, Restarted, RecoveredLock,
      RecoveredGenerations, Fenced;
    ghost var m := d.M();
    CalmDisk(d);
    QuietIfCalm(d);
    DestinationKeepsRuntime(d.state);
    s := d.state;
    ok := StartupRecovery(d);
    QuietIfCalm(d);
    if !ok {
      return;
    }
    ok, s := d.Load();
    if !ok {
      return;
    }
    var loaded := s;
    ok, s := FencePriorProcess(d, loaded, inspection);
    StrippedSame(loaded, d.state);
    if ok {
      StandsRestarted(m, d.M(), d.world);
      CalmNow(d);
    }
  }

  lemma StandsRestarted(m: Machine, w: Machine, world: World)
    requires w.lock == RecoveredLock(m) && w.generations == RecoveredGenerations(m)
    requires Stripped(w.state) == Stripped(Destination(m.state)) && w.state.steamBuild == m.state.steamBuild
    ensures StandsAs(w, Restarted(world, m))
  {
    DestinationKeepsRuntime(m.state);
    hide Stripped, Destination, RecoveredLock, RecoveredGenerations;
  }

  lemma DestinationKeepsRuntime(s: State)
    ensures Destination(s).runtime == s.runtime && Destination(s).steamBuild == s.steamBuild
  {
  }

  /**
   * Application.Run, one lifetime of the controller. Every state on the way is one of the protocol;
   * a clean exit leaves nothing pending, and Active as it was or the offer; and on a calm disk, with
   * no fault, no exit leaves anything pending, and the exit is clean exactly if the fence passes and
   * the lifetime ends well from where recovery has to bring the durable state of before.
   */
  method Run(d: Disk, life: Lifetime) returns (exit: Exit)
    requires d.Valid() && ServerRecorded(d.M()) && (life.offer.Some? ==> IsName(life.offer.value.id))
    modifies d
    ensures d.Valid() && d.faults <= old(d.faults) && d.edits <= old(d.edits)
    ensures exit.ExitOk? || (!d.outside && d.faults == old(d.faults)) ==> AtRest(d.state)
    ensures exit.ExitOk? && life.modsEnabled ==> d.state.active.Some?
    ensures exit.ExitOk? && !(life.modsEnabled && life.updateMods) ==>
      Stripped(d.state) == Stripped(Destination(old(d.state)))
    ensures exit.ExitOk? ==>
      || Stripped(d.state) == Stripped(Destination(old(d.state)))
      || (life.offer.Some? && d.state.active.Some? && d.state.active.value.id == life.offer.value.id)
    ensures ServerRecorded(d.M())
    ensures old(d.game).Some? ==> !exit.ExitOk? && d.game == old(d.game) && d.state.runtime == old(d.state).runtime
    ensures old(d.game).None? ==> d.game.None?
    ensures old(d.state).runtime.server != ProcessIdentity(0, 0) && life.inspection.InspectionFailed? ==> !exit.ExitOk?
    ensures exit.ExitOk? ==> ServerNamed(d.state, life) && Noted(life, d.state)
    ensures exit.ExitOk? && life.modsEnabled ==> ActiveIsValid(d.M())
    ensures !d.outside && d.faults == old(d.faults) ==>
      (exit.ExitOk? <==> StartsWell(old(d.M()), d.world, life))
  {
    hide Grounded, ActiveIsValid, Destination, Stripped, IsRelativePath, UpdateEndsWell, AsIsEndsWell, StandsAs,
      Restarted, EndsWell, Fenced, Seen, ServerNamed, Noted;
    ghost var m := d.M();
    var ok, s := RecoverAndFence(d, life.inspection);
    if !ok {
      return ExitPreflight;
    }
    if !d.outside {
      RestartedAlike(d.world, m, d.M(), life);
    }
    exit := Start(d, life, s);
  }

  /** The rest of Run: what is active, and what is to be launched. */
  method Start(d: Disk, life: Lifetime, s: State) returns (exit: Exit)
    requires d.Valid() && AtRest(d.state) && d.proc.Idle? && d.game.None? && !d.state.runtime.ready && s == d.state
    requires life.offer.Some? ==> IsName(life.offer.value.id)
    modifies d
    ensures d.Valid() && d.faults <= old(d.faults) && d.edits <= old(d.edits) && d.game.None?
    ensures exit.ExitOk? || (!d.outside && d.faults == old(d.faults)) ==> AtRest(d.state)
    ensures exit.ExitOk? ==> ServerNamed(d.state, life) && Noted(life, d.state)
    ensures exit.ExitOk? && life.modsEnabled ==> ActiveIsValid(d.M())
    ensures exit.ExitOk? && life.modsEnabled ==> d.state.active.Some?
    ensures exit.ExitOk? && !(life.modsEnabled && life.updateMods) ==> Stripped(d.state) == Stripped(old(d.state))
    ensures exit.ExitOk? ==>
      || Stripped(d.state) == Stripped(old(d.state))
      || (life.offer.Some? && d.state.active.Some? && d.state.active.value.id == life.offer.value.id)
    ensures !d.outside && d.faults == old(d.faults) ==> (exit.ExitOk? <==> EndsWell(old(d.M()), life))
  {
    hide Grounded, ActiveIsValid, Stripped, IsRelativePath, UpdateEndsWell, AsIsEndsWell, ServerNamed;
    var active := None;
    if life.modsEnabled {
      var ok;
      ok, active := LoadActive(d, s);
      ActiveRecord(d);
    }
    if life.modsEnabled && life.updateMods {
      exit := UpdateAndLaunch(d, life, s, active);
    } else {
      exit := LaunchAsIs(d, life, s, active);
    }
  }

  /** On an undisturbed disk recovery ends where it has to. */
  lemma RestartedAlike(world: World, m: Machine, w: Machine, life: Lifetime)
    requires Inv(world, w) && w.proc.Idle? && StandsAs(w, Restarted(world, m))
    ensures EndsWell(w, life) <==> EndsWell(Restarted(world, m), life)
  {
    hide EndsWell, Faithful, JournalPart, CleanupOk, LockOk, ProcOk, GenerationsOk, RecordsOk, ConsistentGeneration;
    IdleLive(world, w);
    SameActiveFiles(w, Restarted(world, m));
    EndsWellAlike(w, Restarted(world, m), life);
  }

  lemma SameActiveFiles(m: Machine, w: Machine)
    requires StandsAs(m, w)
    ensures FilesOf(m, m.state.active) == FilesOf(w, w.state.active)
  {
    StandsAlike(m, w);
  }

  lemma CalmNow(d: Disk)
    requires d.Valid()
    ensures !d.outside ==> Inv(d.world, d.M())
  {
    SoundNow(d.world, d.outside, d.states, d.log, d.M());
    hide Grounded, Inv, Ledger;
  }

  /**
   * On an undisturbed machine at rest, what is active is installed, and an offer can be installed
   * exactly if no unmanaged file is where a new one would go.
   */
  lemma UndisturbedStart(world: World, m: Machine, files: map<string, string>)
    requires Inv(world, m) && m.proc.Idle? && Applies.ManagedPaths(files)
    ensures ActiveIsValid(m) ==> InstalledExactly(m.live, ActiveValue(m).manifest.files)
    ensures Installable(m, files) <==> forall p :: p in files && p !in FilesOf(m, m.state.active) ==> p !in world
  {
    hide Faithful, JournalPart, CleanupOk, LockOk, ProcOk, StagedMatches, ValidLock, FilesOf, Applies.ManagedPaths;
    IdleLive(world, m);
    NoConfigAmong(m, files);
    InstalledMeans(world, m.live, FilesOf(m, m.state.active), files);
    if ActiveIsValid(m) {
      ActiveFiles(m);
    }
  }

  lemma InstalledMeans(world: World, live: map<string, string>, prior: map<string, string>, files: map<string, string>)
    requires world.Keys !! prior.Keys && forall p :: p != CONFIG_PATH ==> Get(live, p) == Get(world + prior, p)
    requires CONFIG_PATH !in files && CONFIG_PATH !in prior
    ensures InstalledExactly(live, prior)
    ensures (forall p :: p in prior || p in files ==> Get(live, p) == Get(prior, p)) <==>
      forall p :: p in files && p !in prior ==> p !in world
  {
    if forall p :: p in prior || p in files ==> Get(live, p) == Get(prior, p) {
      forall p | p in files && p !in prior
        ensures p !in world
      {
        assert Get(live, p) == Get(prior, p);
      }
    }
  }

  /** At rest, the live files but the configuration are the unmanaged and the active ones. */
  lemma IdleLive(world: World, m: Machine)
    requires Inv(world, m) && m.proc.Idle?
    ensures var prior := FilesOf(m, m.state.active);
      world.Keys !! prior.Keys && forall p :: p != CONFIG_PATH ==> Get(m.live, p) == Get(world + prior, p)
  {
    hide JournalPart, GenerationsOk, RecordsOk, CleanupOk, LockOk, EntriesOk;
  }

  lemma NoConfigAmong(m: Machine, files: map<string, string>)
    requires GenerationsOk(m) && RecordsOk(m) && Applies.ManagedPaths(files)
    ensures CONFIG_PATH !in files && CONFIG_PATH !in FilesOf(m, m.state.active)
  {
    ConfigIsNotManaged();
    hide IsManagedRuntimePath, IsRelativePath, HasRuntimeFiles, PackageLockDigest;
  }

  lemma ActiveFiles(m: Machine)
    requires ActiveIsValid(m)
    ensures ActiveValue(m).manifest.files == FilesOf(m, m.state.active)
  {
    hide StagedMatches, ValidLock;
  }

  /**
   * Any number of lifetimes, each ended by a crash anywhere or by an exit. On a disk that does not
   * fail nothing is pending behind the last one, and a lifetime that ended well makes the next one
   * without updates serve what it has served. While a recorded server runs, none of them starts one.
   * That an idle calm disk holds, in its live files, its lock and its Active record, the last
   * generation whose promotion intent became durable is an invariant of the disk, which no number of
   * lifetimes breaks.
   */
  method Lifetimes(d: Disk, lives: seq<Lifetime>) returns (exits: seq<Exit>, builds: seq<string>)
    requires d.Valid() && ServerRecorded(d.M())
    requires forall i :: 0 <= i < |lives| ==> lives[i].offer.Some? ==> IsName(lives[i].offer.value.id)
    modifies d
    ensures d.Valid() && d.faults <= old(d.faults) && d.edits <= old(d.edits)
    ensures |exits| == |builds| == |lives| && ServerRecorded(d.M())
    ensures lives != [] && (exits[|lives| - 1].ExitOk? || (!d.outside && d.faults == old(d.faults))) ==> AtRest(d.state)
    ensures lives != [] ==> builds[|lives| - 1] == d.state.steamBuild
    ensures forall i :: 0 <= i < |lives| && exits[i].ExitOk? ==> BuildServed(lives[i], builds[i])
    ensures old(d.game).Some? ==> d.game == old(d.game) && forall i :: 0 <= i < |lives| ==> !exits[i].ExitOk?
    ensures lives != [] && !d.outside && d.faults == old(d.faults) ==>
      (exits[0].ExitOk? <==> StartsWell(old(d.M()), d.world, lives[0]))
    ensures !d.outside && d.faults == old(d.faults) ==>
      forall i :: 0 <= i < |lives| - 1 && exits[i].ExitOk? && ServesAgain(lives[i], builds[i], lives[i + 1]) ==>
        exits[i + 1].ExitOk?
    ensures !d.outside && d.proc.Idle? ==> NamesInstallation(d, Committed(d.first, d.log, Chosen(d.first)))
  {
    hide Grounded, IsRelativePath, Split, NamesInstallation, Committed, Chosen, Calm, Exec, EndsWell, Restarted, Fenced,
      Seen, StartsWell, ServesAgain, ServerNamed, BuildServed, Noted, ActiveIsValid;
    exits, builds := [], [];
    for i := 0 to |lives|
      invariant d.Valid() && d.faults <= old(d.faults) && d.edits <= old(d.edits) && |exits| == |builds| == i
      invariant i == 0 ==> d.M() == old(d.M())
      invariant ServerRecorded(d.M()) && (i > 0 ==> builds[i - 1] == d.state.steamBuild)
      invariant i > 0 && (exits[i - 1].ExitOk? || (!d.outside && d.faults == old(d.faults))) ==> AtRest(d.state)
      invariant i > 0 && exits[i - 1].ExitOk? ==>
        ServerNamed(d.state, lives[i - 1]) && d.game.None? && (lives[i - 1].modsEnabled ==> ActiveIsValid(d.M()))
      invariant forall k :: 0 <= k < i && exits[k].ExitOk? ==> BuildServed(lives[k], builds[k])
      invariant old(d.game).Some? ==> d.game == old(d.game) && forall k :: 0 <= k < i ==> !exits[k].ExitOk?
      invariant i > 0 && !d.outside && d.faults == old(d.faults) ==>
        (exits[0].ExitOk? <==> StartsWell(old(d.M()), d.world, lives[0]))
      invariant !d.outside && d.faults == old(d.faults) ==>
        forall k :: 0 <= k < i - 1 && exits[k].ExitOk? && ServesAgain(lives[k], builds[k], lives[k + 1]) ==>
          exits[k + 1].ExitOk?
    {
      if i > 0 && exits[i - 1].ExitOk? && ServesAgain(lives[i - 1], builds[i - 1], lives[i]) {
        StartsAgain(d.M(), d.world, lives[i - 1], lives[i]);
      }
      var exit := Run(d, lives[i]);
      if exit.ExitOk? {
        NotedBuild(lives[i], d.state);
      }
      exits, builds := exits + [exit], builds + [d.state.steamBuild];
    }
    if !d.outside && d.proc.Idle? {
      IdleDiskIsInstalled(d);
    }
  }

  /** The next lifetime runs the build that was served, without updates, and finds the old server gone. */
  predicate ServesAgain(life: Lifetime, build: string, next: Lifetime) {
    && next.inspection.NoProcess? && life.server.Some? && life.server.value.startTicks > 0
    && (next.modsEnabled ==>
          && life.modsEnabled && !next.updateMods
          && next.installedBuild == build && build != "" && next.validates)
    && next.steam.SteamReady? && ServesWell(next, false)
  }

  lemma StartsAgain(m: Machine, world: World, life: Lifetime, next: Lifetime)
    requires AtRest(m.state) && m.game.None? && ServerNamed(m.state, life)
    requires life.modsEnabled ==> ActiveIsValid(m)
    requires ServesAgain(life, m.state.steamBuild, next)
    ensures StartsWell(m, world, next)
  {
    hide StagedMatches, ValidLock, ServesWell;
    var w := Restarted(world, m);
    assert w.state == m.state && w.lock == m.lock && w.generations == m.generations;
    if next.modsEnabled {
      assert ActiveIsValid(w);
      ActiveFiles(w);
    }
  }
}
