/**
 * Supervisor.Run and its saves of the shared state cell. The processes, signals and timers are a
 * sequence of events; each is what one turn of the select loop received.
 */
module Supervisors {
  import opened Prelude
  import opened Records
  import opened Machine
  import opened Invariant
  import opened Convergence
  import opened Disks
  import opened Stores
  import opened Promotions

  datatype SupervisorEvent =
    | StartupDeadline
    | MonitorFailed
    | XvfbExited(code: int)
    | WineExited(code: int, clean: bool)
    | ReadinessFailed(code: int)
    // Both processes are alive before, and after, OnReady.
    | ServerReady(aliveBefore: bool, aliveAfter: bool, code: int)
    | Terminated(signal: int, code: int, clean: bool)
    | OtherSignal
    | Cancelled(code: int)

  datatype LaunchRequest = LaunchRequest(generation: string, steamBuild: string, candidate: Option<StagedGeneration>)

  datatype RunResult = RunResult(ready: bool, exitCode: int)

  /** The state without what the supervisor and the orchestrator save. */
  function Stripped(s: State): State {
    s.(runtime := RuntimeState("", false, false, "", ProcessIdentity(0, 0), "", ""), steamBuild := "")
  }

  lemma StrippedDestination(s: State)
    ensures Stripped(Destination(s)) == Destination(Stripped(s))
  {
  }

  lemma StrippedSame(s: State, t: State)
    requires Stripped(s) == Stripped(t)
    ensures t == s.(runtime := t.runtime, steamBuild := t.steamBuild)
    ensures s.transaction == t.transaction && s.promotion == t.promotion && s.candidate == t.candidate
    ensures s.active == t.active && s.previous == t.previous && s.failed == t.failed &&
      s.pendingCleanup == t.pendingCleanup
  {
    var x, y := Stripped(s), Stripped(t);
    assert x.transaction == y.transaction && x.promotion == y.promotion && x.candidate == y.candidate;
    assert x.active == y.active && x.previous == y.previous && x.failed == y.failed &&
      x.pendingCleanup == y.pendingCleanup;
  }

  /**
   * A save by the supervisor or the orchestrator: only the runtime fields and the Steam build
   * change, so that no update of records, transaction, promotion or cleanup is lost; and Ready is
   * saved only while no transaction and no intent is pending.
   */
  method SaveRuntimeState(d: Disk, s: State) returns (ok: bool)
    requires d.Valid() && Stripped(s) == Stripped(d.state)
    requires s.runtime.ready ==> s.transaction.None? && s.promotion.None?
    requires d.game.Some? ==> s.runtime.server == d.game.value
    modifies d
    ensures d.Valid() && d.faults <= old(d.faults) && d.edits <= old(d.edits)
    ensures d.M() == old(d.M()).(state := d.state, live := d.live)
    ensures d.edits == old(d.edits) ==> d.live - {CONFIG_PATH} == old(d.live) - {CONFIG_PATH}
    ensures d.edits == old(d.edits) && d.game.None? ==> d.live == old(d.live)
    ensures d.state == old(d.state) || d.state == s
    ensures if ok then d.state == s else d.faults < old(d.faults)
  {
    StrippedSame(d.state, s);
    hide Grounded, Stripped;
    ok := d.SaveState(s, d.proc, d.backups, SaveRuntime(s.runtime, s.steamBuild));
  }

  // ---- Starting and stopping ----

  /** StartWine. No server is running: the protocol has no step that starts a second one. */
  method StartGame(d: Disk, server: Running)
    requires d.Valid() && !d.proc.InApply? && d.game.None?
    modifies d
    ensures d.Valid() && d.M() == old(d.M()).(game := Some(server))
    ensures d.faults == old(d.faults) && d.edits == old(d.edits)
  {
    hide Grounded;
    d.Turn(d.proc, Some(server), Event.Launch(server));
  }

  /** stopWine returns only after the process is gone. */
  method StopGame(d: Disk)
    requires d.Valid()
    modifies d
    ensures d.Valid() && d.M() == old(d.M()).(game := None) && d.faults == old(d.faults) && d.edits == old(d.edits)
  {
    hide Grounded;
    d.Turn(d.proc, None, Fence);
  }

  // ---- What is saved over a run ----

  /** Neither the runtime record nor the known-good Steam build was saved. */
  predicate Unsaved(s0: State, s: State) {
    s.runtime == s0.runtime && s.steamBuild == s0.steamBuild
  }

  /** Ready was saved, and with it the Steam build that has proved good. */
  predicate ReadySaved(s0: State, s: State, build: string) {
    s.runtime == s0.runtime.(phase := "ready", ready := true) && s.steamBuild == build
  }

  /** A ready save that failed may have taken effect. */
  predicate RuntimeAfter(s0: State, s: State, build: string, ready: bool, faulty: bool) {
    if ready then ReadySaved(s0, s, build) else Unsaved(s0, s) || (faulty && ReadySaved(s0, s, build))
  }

  /** What supervision leaves of the lock and the directories. */
  predicate KeepsGenerations(m0: Machine, m: Machine, candidate: Option<StagedGeneration>,
                             outcome: PromotionCommitOutcome) {
    match outcome
    case PromotionNotCommitted => m.lock == m0.lock && m.generations == m0.generations
    case PromotionCommitted =>
      candidate.Some? && m.lock == Some(candidate.value.lock)
      && Get(m.generations, candidate.value.record.id) == Get(m0.generations, candidate.value.record.id)
    case PromotionRecoveryRequired => true
  }

  // ---- Records over a run ----

  /** What the process may launch: an idle installation, or a candidate it has just applied. */
  ghost predicate Launchable(m: Machine, candidate: Option<StagedGeneration>) {
    if candidate.None? then m.state.transaction.None? && m.state.promotion.None? && !m.proc.InApply?
    else m.proc.Serving? && m.state.transaction.Some? && m.state.promotion.None?
  }

  /** What supervision leaves of the records: nothing, or what the promotion of the candidate made of them. */
  ghost predicate Supervised(s0: State, s: State, candidate: Option<StagedGeneration>,
                             outcome: PromotionCommitOutcome) {
    match outcome
    case PromotionNotCommitted => Stripped(s) == Stripped(s0)
    case PromotionCommitted =>
      candidate.Some? && Stripped(s) == Stripped(Destination(IntendedState(s0, candidate.value)))
    case PromotionRecoveryRequired =>
      candidate.Some? &&
      (Stripped(s) == Stripped(s0) ||
        Stripped(Destination(s)) == Stripped(Destination(IntendedState(s0, candidate.value))))
  }

  lemma SupervisedSave(s0: State, s: State, t: State, candidate: Option<StagedGeneration>,
                       outcome: PromotionCommitOutcome)
    requires Supervised(s0, s, candidate, outcome) && Stripped(t) == Stripped(s)
    ensures Supervised(s0, t, candidate, outcome)
  {
    StrippedDestination(s);
    StrippedDestination(t);
    hide Stripped, Destination;
  }

  lemma SupervisedCommit(s0: State, s1: State, s: State, staged: StagedGeneration, outcome: PromotionCommitOutcome)
    requires Stripped(s1) == Stripped(s0)
    requires match outcome
      case PromotionNotCommitted => s == s1
      case PromotionCommitted => s == Destination(IntendedState(s1, staged))
      case PromotionRecoveryRequired => s == s1 || Destination(s) == Destination(IntendedState(s1, staged))
    ensures Supervised(s0, s, Some(staged), outcome)
  {
    IntendedStripped(s0, s1, staged);
    StrippedDestination(IntendedState(s0, staged));
    StrippedDestination(IntendedState(s1, staged));
    hide Stripped, Destination, IntendedState;
  }

  lemma IntendedStripped(s: State, t: State, staged: StagedGeneration)
    requires Stripped(s) == Stripped(t)
    ensures Stripped(IntendedState(s, staged)) == Stripped(IntendedState(t, staged))
  {
    StrippedSame(s, t);
  }

  // ---- Becoming ready ----

  lemma CommittedState(m0: Machine, staged: StagedGeneration, m: Machine)
    requires Promotable(m0, staged) && Reconciled(m0.(state := IntendedState(m0.state, staged)), m)
    ensures m.state == Destination(IntendedState(m0.state, staged))
    ensures m.state.transaction.None? && m.state.promotion.None? && Unsaved(m0.state, m.state)
    ensures staged.record.id in m.generations ==> KeepsGenerations(m0, m, Some(staged), PromotionCommitted)
  {
    CommittedPromotion(m0, staged, m);
    hide ArtifactsMatch, StagedMatches, CleanupGenerationIDs, Destination, Reconciled;
  }

  /** No promotion, finished or not, saves runtime fields. */
  lemma PromotionUnsaved(s0: State, s: State, staged: StagedGeneration)
    requires s == s0 || Destination(s) == Destination(IntendedState(s0, staged))
    ensures Unsaved(s0, s)
  {
    DestinationUnsaved(s);
    DestinationUnsaved(IntendedState(s0, staged));
    hide Destination;
  }

  lemma DestinationUnsaved(s: State)
    ensures Unsaved(s, Destination(s))
  {
  }

  /** The active generation has its directory. */
  lemma ActiveDirectory(d: Disk)
    requires d.Valid()
    ensures d.state.active.Some? ==> d.state.active.value.id in d.generations
  {
    LedgerNow(d);
    hide Grounded, JournalPart, GenerationsOk, CleanupOk, LockOk, ProcOk;
  }

  /** OnReady: the candidate, if there is one, is promoted. */
  method CommitReady(d: Disk, candidate: Option<StagedGeneration>) returns (ok: bool, outcome: PromotionCommitOutcome)
    requires d.Valid() && Launchable(d.M(), candidate)
    modifies d
    ensures d.Valid() && d.faults <= old(d.faults) && d.edits <= old(d.edits) && d.game == old(d.game)
    ensures d.edits == old(d.edits) ==> d.live - {CONFIG_PATH} == old(d.live) - {CONFIG_PATH}
    ensures Supervised(old(d.state), d.state, candidate, outcome)
    ensures ok ==>
      d.state.transaction.None? && d.state.promotion.None? && (candidate.Some? ==> outcome.PromotionCommitted?)
    ensures candidate.None? ==> ok && outcome.PromotionNotCommitted?
    ensures d.faults == old(d.faults) ==> (ok <==> (candidate.Some? ==> Promotable(old(d.M()), candidate.value)))
    ensures !ok ==> outcome != PromotionCommitted
    ensures d.faults == old(d.faults) ==> !outcome.PromotionRecoveryRequired?
    ensures Unsaved(old(d.state), d.state) && KeepsGenerations(old(d.M()), d.M(), candidate, outcome)
  {
    ghost var m := d.M();
    hide Grounded, Promotable, Reconciled, Stripped, Supervised;
    if candidate.None? {
      SupervisedNothing(m.state);
      return true, PromotionNotCommitted;
    }
    hide Destination, IntendedState;
    outcome := CommitPromotion(d, candidate.value);
    if outcome.PromotionCommitted? {
      CommittedPromotion(m, candidate.value, d.M());
      ActiveDirectory(d);
      CommittedState(m, candidate.value, d.M());
    } else {
      PromotionUnsaved(m.state, d.state, candidate.value);
    }
    SupervisedCommit(m.state, m.state, d.state, candidate.value, outcome);
    ok := outcome.PromotionCommitted?;
  }

  lemma SupervisedNothing(s: State)
    ensures forall candidate :: Supervised(s, s, candidate, PromotionNotCommitted)
  {
  }

  /**
   * The ready branch of the loop. Ready becomes durable only here, after OnReady succeeded and
   * both processes were found alive again.
   */
  method BecomeReady(d: Disk, request: LaunchRequest, aliveBefore: bool, aliveAfter: bool)
      returns (ok: bool, outcome: PromotionCommitOutcome)
    requires d.Valid() && Launchable(d.M(), request.candidate) && ServerRecorded(d.M())
    modifies d
    ensures d.Valid() && d.faults <= old(d.faults) && d.edits <= old(d.edits) && d.game == old(d.game)
    ensures d.edits == old(d.edits) ==> d.live - {CONFIG_PATH} == old(d.live) - {CONFIG_PATH}
    ensures Supervised(old(d.state), d.state, request.candidate, outcome)
    ensures KeepsGenerations(old(d.M()), d.M(), request.candidate, outcome)
    ensures ok ==> request.candidate.Some? ==> outcome.PromotionCommitted?
    ensures RuntimeAfter(old(d.state), d.state, request.steamBuild, ok, d.faults < old(d.faults))
    ensures d.faults == old(d.faults) ==> !outcome.PromotionRecoveryRequired?
    ensures request.candidate.None? ==> outcome.PromotionNotCommitted?
    ensures d.faults == old(d.faults) ==>
      (ok <==> && aliveBefore
               && (request.candidate.Some? ==> aliveAfter && Promotable(old(d.M()), request.candidate.value)))
  {
    ghost var m := d.M();
    hide Grounded, Promotable, Stripped, Supervised;
    SupervisedNothing(m.state);
    if !aliveBefore {
      return false, PromotionNotCommitted;
    }
    hide Launchable;
    ok, outcome := CommitReady(d, request.candidate);
    if !ok || (request.candidate.Some? && !aliveAfter) {
      return false, outcome;
    }
    var s;
    ok, s := d.Load();
    if !ok {
      return false, outcome;
    }
    var ready := s.(runtime := s.runtime.(phase := "ready", ready := true), steamBuild := request.steamBuild);
    RuntimeOnly(s, ready.runtime, ready.steamBuild);
    ghost var m1 := d.M();
    ok := SaveRuntimeState(d, ready);
    SupervisedSave(m.state, s, d.state, request.candidate, outcome);
    assert d.M() == m1.(state := d.state, live := d.live);
  }

  lemma RuntimeOnly(s: State, runtime: RuntimeState, steamBuild: string)
    ensures Stripped(s.(runtime := runtime, steamBuild := steamBuild)) == Stripped(s)
  {
  }

  // ---- The event loop ----

  /** The server becomes ready before anything ends the wait. */
  predicate ComesReady(events: seq<SupervisorEvent>, promoting: bool) {
    events != [] &&
    (|| (events[0].OtherSignal? && ComesReady(events[1..], promoting))
     || (events[0].ServerReady? && events[0].aliveBefore && (promoting ==> events[0].aliveAfter)))
  }

  lemma ComesNext(events: seq<SupervisorEvent>, i: nat, promoting: bool)
    requires i < |events|
    ensures var event := events[i];
      ComesReady(events[i..], promoting) <==>
        || (event.OtherSignal? && ComesReady(events[i + 1..], promoting))
        || (event.ServerReady? && event.aliveBefore && (promoting ==> event.aliveAfter))
  {
    assert events[i..][0] == events[i] && events[i..][1..] == events[i + 1..];
  }

  lemma NothingComes(events: seq<SupervisorEvent>, promoting: bool)
    ensures !ComesReady(events[|events|..], promoting) && events[0..] == events
  {
  }

  /** What ends the loop whether or not the server is ready. */
  predicate Ends(event: SupervisorEvent) {
    !event.StartupDeadline? && !event.ReadinessFailed? && !event.ServerReady? && !event.OtherSignal?
  }

  /** Wine exits by itself, or is terminated, with no error in stopping or waiting; dying of the signal is status 0. */
  predicate CleanEnd(event: SupervisorEvent, code: int) {
    || (event.WineExited? && event.clean && code == event.code)
    || (event.Terminated? && event.clean && code == if event.code == 128 + event.signal then 0 else event.code)
  }

  /** The first event that ends the loop is a clean one, with this exit status. */
  predicate EndsCleanly(events: seq<SupervisorEvent>, code: int) {
    exists i :: 0 <= i < |events| && CleanEnd(events[i], code) && forall k :: 0 <= k < i ==> !Ends(events[k])
  }

  /** The first event that ends the loop decides how. */
  lemma FirstEndDecides(events: seq<SupervisorEvent>, i: nat)
    requires i < |events| && Ends(events[i]) && forall k :: 0 <= k < i ==> !Ends(events[k])
    ensures forall code :: EndsCleanly(events, code) <==> CleanEnd(events[i], code)
  {
    forall code | EndsCleanly(events, code)
      ensures CleanEnd(events[i], code)
    {
      var k :| 0 <= k < |events| && CleanEnd(events[k], code) && forall n :: 0 <= n < k ==> !Ends(events[n]);
    }
  }

  lemma OneEnd(events: seq<SupervisorEvent>, a: int)
    requires EndsCleanly(events, a)
    ensures forall b :: EndsCleanly(events, b) ==> b == a
  {
    var i :| 0 <= i < |events| && CleanEnd(events[i], a) && forall k :: 0 <= k < i ==> !Ends(events[k]);
    FirstEndDecides(events, i);
  }

  lemma NothingEnds(events: seq<SupervisorEvent>)
    requires forall k :: 0 <= k < |events| ==> !Ends(events[k])
    ensures forall code :: !EndsCleanly(events, code)
  {
  }

  method EventLoop(d: Disk, request: LaunchRequest, events: seq<SupervisorEvent>)
      returns (result: RunResult, failed: bool, outcome: PromotionCommitOutcome)
    requires d.Valid() && Launchable(d.M(), request.candidate) && ServerRecorded(d.M())
    modifies d
    ensures d.Valid() && d.faults <= old(d.faults) && d.edits <= old(d.edits) && d.game == old(d.game)
    ensures d.edits == old(d.edits) ==> d.live - {CONFIG_PATH} == old(d.live) - {CONFIG_PATH}
    ensures Supervised(old(d.state), d.state, request.candidate, outcome) && ServerRecorded(d.M())
    ensures KeepsGenerations(old(d.M()), d.M(), request.candidate, outcome)
    ensures RuntimeAfter(old(d.state), d.state, request.steamBuild, result.ready, d.faults < old(d.faults))
    ensures result.ready && request.candidate.Some? ==> outcome.PromotionCommitted?
    ensures d.faults == old(d.faults) ==> !outcome.PromotionRecoveryRequired?
    ensures request.candidate.None? ==> outcome.PromotionNotCommitted?
    ensures d.faults == old(d.faults) ==>
      (result.ready <==> ComesReady(events, request.candidate.Some?)
                         && (request.candidate.Some? ==> Promotable(old(d.M()), request.candidate.value)))
    ensures !failed ==> EndsCleanly(events, result.exitCode)
    ensures result.ready && failed ==> forall code :: !EndsCleanly(events, code)
  {
    hide Grounded, Promotable, Stripped, Supervised, Launchable, ComesReady, EndsCleanly, StillWaiting;
    ghost var m := d.M();
    SupervisedNothing(m.state);
    NothingComes(events, request.candidate.Some?);
    WaitedOn(m, m, request.candidate);
    result, failed, outcome := RunResult(false, 0), true, PromotionNotCommitted;
    var i := 0;
    while i < |events|
      invariant 0 <= i <= |events| && d.Valid() && d.faults <= old(d.faults) && d.edits <= old(d.edits) &&
        d.game == old(d.game)
      invariant d.edits == old(d.edits) ==> d.live - {CONFIG_PATH} == old(d.live) - {CONFIG_PATH}
      invariant Supervised(m.state, d.state, request.candidate, outcome)
      invariant !result.ready ==> StillWaiting(m, d.M(), request.candidate)
      invariant KeepsGenerations(m, d.M(), request.candidate, outcome)
      invariant if result.ready then ReadySaved(m.state, d.state, request.steamBuild) else Unsaved(m.state, d.state)
      invariant !result.ready ==>
        ComesReady(events, request.candidate.Some?) == ComesReady(events[i..], request.candidate.Some?)
      invariant result.ready && request.candidate.Some? ==> outcome.PromotionCommitted?
      invariant !result.ready || request.candidate.None? ==> outcome.PromotionNotCommitted?
      invariant result.ready && request.candidate.Some? ==> !outcome.PromotionRecoveryRequired?
      invariant result.ready && d.faults == old(d.faults) ==>
        ComesReady(events, request.candidate.Some?) &&
          (request.candidate.Some? ==> Promotable(m, request.candidate.value))
      invariant failed && result.exitCode == 0 && forall k :: 0 <= k < i ==> !Ends(events[k])
    {
      var event := events[i];
      ComesNext(events, i, request.candidate.Some?);
      if Ends(event) {
        FirstEndDecides(events, i);
        failed, result := EndLoop(event, result);
        return;
      }
      i := i + 1;
      if result.ready {
        d.Environment();
      } else {
        ghost var w := d.M();
        WaitingIs(m, w, request.candidate);
        var going;
        going, result, outcome := AwaitReady(d, request, event);
        if !going {
          return;
        }
        if !result.ready {
          WaitedMore(m, w, d.M(), request.candidate);
          WaitingIs(m, d.M(), request.candidate);
        }
      }
    }
    NothingEnds(events);
  }

  /** Others may write live files while the supervisor waits; nothing it decides on changes. */
  ghost predicate StillWaiting(m: Machine, w: Machine, candidate: Option<StagedGeneration>) {
    && w == m.(live := w.live) && Launchable(w, candidate)
    && (candidate.Some? ==> (Promotable(w, candidate.value) <==> Promotable(m, candidate.value)))
  }

  lemma WaitedOn(m: Machine, w: Machine, candidate: Option<StagedGeneration>)
    requires Launchable(m, candidate) && w == m.(live := w.live)
    ensures StillWaiting(m, w, candidate)
  {
    LaunchableStill(m, w, candidate);
    hide Launchable, Promotable;
  }

  lemma WaitedMore(m: Machine, w: Machine, u: Machine, candidate: Option<StagedGeneration>)
    requires StillWaiting(m, w, candidate) && StillWaiting(w, u, candidate)
    ensures StillWaiting(m, u, candidate)
  {
    hide Launchable, Promotable;
  }

  lemma WaitingIs(m: Machine, w: Machine, candidate: Option<StagedGeneration>)
    requires StillWaiting(m, w, candidate)
    ensures w == m.(live := w.live) && Launchable(w, candidate)
    ensures candidate.Some? ==> (Promotable(w, candidate.value) <==> Promotable(m, candidate.value))
  {
    hide Launchable, Promotable;
  }

  /** The branches that matter only while the server is not ready. */
  method AwaitReady(d: Disk, request: LaunchRequest, event: SupervisorEvent)
      returns (going: bool, result: RunResult, outcome: PromotionCommitOutcome)
    requires d.Valid() && Launchable(d.M(), request.candidate) && ServerRecorded(d.M()) && !Ends(event)
    modifies d
    ensures d.Valid() && d.faults <= old(d.faults) && d.edits <= old(d.edits) && d.game == old(d.game)
    ensures d.edits == old(d.edits) ==> d.live - {CONFIG_PATH} == old(d.live) - {CONFIG_PATH}
    ensures Supervised(old(d.state), d.state, request.candidate, outcome)
    ensures KeepsGenerations(old(d.M()), d.M(), request.candidate, outcome)
    ensures RuntimeAfter(old(d.state), d.state, request.steamBuild, result.ready, d.faults < old(d.faults))
    ensures going <==> result.ready || event.OtherSignal?
    ensures result.ready ==> event.ServerReady? && (request.candidate.Some? ==> outcome.PromotionCommitted?)
    ensures event.OtherSignal? ==> StillWaiting(old(d.M()), d.M(), request.candidate) && outcome.PromotionNotCommitted?
    ensures d.faults == old(d.faults) ==> !outcome.PromotionRecoveryRequired?
    ensures request.candidate.None? ==> outcome.PromotionNotCommitted?
    ensures d.faults == old(d.faults) ==>
      (result.ready <==> && event.ServerReady? && event.aliveBefore
                         && (request.candidate.Some? ==>
                              event.aliveAfter && Promotable(old(d.M()), request.candidate.value)))
    ensures result.exitCode == match event
      case ReadinessFailed(code) => code
      case ServerReady(_, _, code) => if result.ready then 0 else code
      case _ => 0
  {
    hide Grounded, Promotable, Stripped, Supervised, Launchable;
    ghost var m := d.M();
    SupervisedNothing(d.state);
    d.Environment();
    WaitedOn(m, d.M(), request.candidate);
    going, result, outcome := false, RunResult(false, 0), PromotionNotCommitted;
    match event {
      case OtherSignal =>
        going := true;
      case StartupDeadline =>
      case ReadinessFailed(code) =>
        result := RunResult(false, code);
      case ServerReady(aliveBefore, aliveAfter, code) =>
        going, outcome := BecomeReady(d, request, aliveBefore, aliveAfter);
        result := if going then RunResult(true, 0) else RunResult(false, code);
    }
  }

  /** The branches that return whether or not the server is ready. */
  method EndLoop(event: SupervisorEvent, before: RunResult) returns (failed: bool, result: RunResult)
    requires Ends(event)
    ensures result.ready == before.ready
    ensures if failed then forall code :: !CleanEnd(event, code) else CleanEnd(event, result.exitCode)
    ensures result.exitCode == match event
      case XvfbExited(code) => code
      case WineExited(code, _) => code
      case Terminated(signal, code, _) => if code == 128 + signal then 0 else code
      case Cancelled(code) => code
      case _ => before.exitCode
  {
    failed, result := true, before;
    match event {
      case MonitorFailed =>
      case XvfbExited(code) =>
        result := result.(exitCode := code);
      case WineExited(code, clean) =>
        failed, result := !clean, result.(exitCode := code);
      case Terminated(signal, code, clean) =>
        failed, result := !clean, result.(exitCode := code);
        if result.exitCode == 128 + signal {
          result := result.(exitCode := 0);
        }
      case Cancelled(code) =>
        result := result.(exitCode := code);
    }
  }

  /** The deferred end of Run: the latest state is loaded again, and saved with Ready cleared. */
  method CloseRuntime(d: Disk) returns (ok: bool)
    requires d.Valid() && d.game.None?
    modifies d
    ensures d.Valid() && d.faults <= old(d.faults) && d.edits <= old(d.edits)
    ensures d.M() == old(d.M()).(state := d.state, live := d.live)
    ensures d.edits == old(d.edits) ==> d.live - {CONFIG_PATH} == old(d.live) - {CONFIG_PATH}
    ensures Stripped(d.state) == Stripped(old(d.state))
    ensures d.state == old(d.state)
      || d.state == old(d.state).(runtime := old(d.state).runtime.(phase := "stopped", ready := false))
    ensures if ok then !d.state.runtime.ready && d.state.runtime.phase == "stopped" else d.faults < old(d.faults)
  {
    hide Grounded, Stripped;
    var s;
    ok, s := d.Load();
    if !ok {
      return false;
    }
    var stopped := s.(runtime := s.runtime.(phase := "stopped", ready := false));
    RuntimeOnly(s, stopped.runtime, s.steamBuild);
    ok := SaveRuntimeState(d, stopped);
  }

  /** What a launch saves before the server can become ready. */
  function Starting(s: State, request: LaunchRequest, server: Running): State {
    s.(runtime := s.runtime.(phase := "starting", ready := false, server := server, generation := request.generation,
                             steamBuild := request.steamBuild))
  }

  /**
   * Supervisor.Run. Records change only by the promotion of the candidate; readiness implies that
   * the promotion was committed, and that the launched Steam build is the known good one; the game is
   * stopped on every return; and every return behind the starting save names the server, the
   * generation and the build in the runtime record and, if its last save succeeds, leaves Ready false.
   */
  method Supervise(d: Disk, request: LaunchRequest, prepared: bool, server: Option<Running>,
                   events: seq<SupervisorEvent>)
      returns (result: RunResult, failed: bool, outcome: PromotionCommitOutcome, recorded: bool, closed: bool)
    requires d.Valid() && Launchable(d.M(), request.candidate) && d.game.None?
    modifies d
    ensures d.Valid() && d.faults <= old(d.faults) && d.edits <= old(d.edits)
    ensures d.edits == old(d.edits) ==> d.live - {CONFIG_PATH} == old(d.live) - {CONFIG_PATH}
    ensures Supervised(old(d.state), d.state, request.candidate, outcome)
    ensures KeepsGenerations(old(d.M()), d.M(), request.candidate, outcome)
    ensures result.ready && request.candidate.Some? ==> outcome.PromotionCommitted?
    ensures d.faults == old(d.faults) ==> !outcome.PromotionRecoveryRequired?
    ensures request.candidate.None? ==> outcome.PromotionNotCommitted?
    ensures d.game.None?
    ensures recorded ==>
      && server.Some? && d.state.runtime.server == server.value && d.state.runtime.generation == request.generation
      && d.state.runtime.steamBuild == request.steamBuild
      && d.state.runtime.degraded == old(d.state).runtime.degraded
      && d.state.runtime.reason == old(d.state).runtime.reason
    ensures recorded && closed ==> !d.state.runtime.ready && d.state.runtime.phase == "stopped"
    ensures result.ready ==> d.state.steamBuild == request.steamBuild
    ensures !result.ready ==>
      || d.state.steamBuild == old(d.state).steamBuild
      || (recorded && d.faults < old(d.faults) && d.state.steamBuild == request.steamBuild)
    ensures !prepared || server.None? ==> d.state == old(d.state)
    ensures d.faults == old(d.faults) ==>
      (result.ready <==> prepared && server.Some? && ComesReady(events, request.candidate.Some?)
                         && (request.candidate.Some? ==> Promotable(old(d.M()), request.candidate.value)))
    ensures d.faults == old(d.faults) && recorded ==> closed
    ensures result.ready ==> recorded
    ensures !failed ==> recorded && closed && EndsCleanly(events, result.exitCode)
    ensures result.ready && failed && closed ==> forall code :: !EndsCleanly(events, code)
  {
    ghost var m := d.M();
    hide Grounded, Promotable, Stripped, Supervised, Launchable, EndsCleanly;
    SupervisedNothing(m.state);
    result, failed, outcome, recorded, closed := RunResult(false, 0), true, PromotionNotCommitted, false, false;
    var ok, s := d.Load();
    if !ok || !prepared {
      return;
    }
    LaunchableProc(m, request.candidate);
    if server.None? {
      var unknown: Running := *;
      StartGame(d, unknown);
      StopGame(d);
      return;
    }
    StartGame(d, server.value);
    result, failed, outcome, recorded, closed := Attend(d, request, s, server.value, events, m);
  }

  lemma LaunchableProc(m: Machine, candidate: Option<StagedGeneration>)
    requires Launchable(m, candidate)
    ensures !m.proc.InApply?
  {
  }

  lemma LaunchableStill(m: Machine, w: Machine, candidate: Option<StagedGeneration>)
    requires Launchable(m, candidate) && Stripped(w.state) == Stripped(m.state)
    requires w == m.(state := w.state, live := w.live, game := w.game)
    ensures Launchable(w, candidate)
    ensures candidate.Some? ==> (Promotable(w, candidate.value) <==> Promotable(m, candidate.value))
  {
    StrippedSame(m.state, w.state);
    SameMatches(m, w.(state := m.state));
    SameMatchesRuntime(m, w);
    hide Stripped, ArtifactsMatch, StagedMatches;
  }

  lemma SameMatchesRuntime(m: Machine, w: Machine)
    requires w.state.transaction == m.state.transaction && w.artifacts == m.artifacts
    ensures ArtifactsMatch(m) <==> ArtifactsMatch(w)
  {
    assert Entries(m) == Entries(w);
    assert forall i :: 0 <= i < |Entries(m)| ==>
      (ArtifactsMatchAt(m, Entries(m)[i]) <==> ArtifactsMatchAt(w, Entries(w)[i]));
  }

  lemma SupervisedFrom(s0: State, s1: State, s: State, candidate: Option<StagedGeneration>,
                       outcome: PromotionCommitOutcome)
    requires Stripped(s1) == Stripped(s0) && Supervised(s1, s, candidate, outcome)
    ensures Supervised(s0, s, candidate, outcome)
  {
    if candidate.Some? {
      IntendedStripped(s0, s1, candidate.value);
      StrippedDestination(IntendedState(s0, candidate.value));
      StrippedDestination(IntendedState(s1, candidate.value));
    }
    hide Stripped, Destination, IntendedState;
  }

  /** Run from the starting save to the deferred one, with the server process running. */
  method Attend(d: Disk, request: LaunchRequest, s: State, server: Running, events: seq<SupervisorEvent>,
                ghost m: Machine)
      returns (result: RunResult, failed: bool, outcome: PromotionCommitOutcome, recorded: bool, closed: bool)
    requires d.Valid() && d.M() == m.(game := Some(server)) && s == m.state && Launchable(m, request.candidate)
    modifies d
    ensures d.Valid() && d.faults <= old(d.faults) && d.edits <= old(d.edits)
    ensures d.edits == old(d.edits) ==> d.live - {CONFIG_PATH} == m.live - {CONFIG_PATH}
    ensures Supervised(m.state, d.state, request.candidate, outcome)
    ensures KeepsGenerations(m, d.M(), request.candidate, outcome)
    ensures result.ready && request.candidate.Some? ==> outcome.PromotionCommitted?
    ensures d.faults == old(d.faults) ==> !outcome.PromotionRecoveryRequired?
    ensures request.candidate.None? ==> outcome.PromotionNotCommitted?
    ensures d.game.None?
    ensures recorded ==>
      && d.state.runtime.server == server && d.state.runtime.generation == request.generation
      && d.state.runtime.steamBuild == request.steamBuild
      && d.state.runtime.degraded == m.state.runtime.degraded && d.state.runtime.reason == m.state.runtime.reason
    ensures recorded && closed ==> !d.state.runtime.ready && d.state.runtime.phase == "stopped"
    ensures result.ready ==> d.state.steamBuild == request.steamBuild
    ensures !result.ready ==>
      || d.state.steamBuild == m.state.steamBuild
      || (recorded && d.faults < old(d.faults) && d.state.steamBuild == request.steamBuild)
    ensures d.faults == old(d.faults) ==>
      (result.ready <==> ComesReady(events, request.candidate.Some?)
                         && (request.candidate.Some? ==> Promotable(m, request.candidate.value)))
    ensures d.faults == old(d.faults) && recorded ==> closed
    ensures result.ready ==> recorded
    ensures !failed ==> recorded && closed && EndsCleanly(events, result.exitCode)
    ensures result.ready && failed && closed ==> forall code :: !EndsCleanly(events, code)
  {
    hide Grounded, Promotable, Stripped, Supervised, Launchable, ComesReady, EndsCleanly;
    SupervisedNothing(m.state);
    result, failed, outcome, recorded, closed := RunResult(false, 0), true, PromotionNotCommitted, false, false;
    var starting := Starting(s, request, server);
    RuntimeOnly(s, starting.runtime, s.steamBuild);
    recorded := SaveRuntimeState(d, starting);
    SupervisedSave(m.state, m.state, d.state, request.candidate, PromotionNotCommitted);
    if !recorded {
      StopGame(d);
      return;
    }
    ghost var m1 := d.M();
    LaunchableStill(m, m1, request.candidate);
    result, failed, outcome := EventLoop(d, request, events);
    SupervisedFrom(m.state, m1.state, d.state, request.candidate, outcome);
    StopGame(d);
    ghost var s2 := d.state;
    closed := CloseRuntime(d);
    failed := failed || !closed;
    SupervisedSave(m.state, s2, d.state, request.candidate, outcome);
  }
}
