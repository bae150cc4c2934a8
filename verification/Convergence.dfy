/**
 * Startup recovery and promotion converge: from every durable state a crash can leave, every
 * productive step decreases a measure, some step is always enabled until the controller is idle,
 * and every way of finishing ends in the same state.
 */
module Convergence {
  import opened Prelude
  import opened Records
  import opened Journal
  import opened EntryRecovery
  import opened Machine
  import opened Invariant
  import opened Preservation
  import opened Runs

  /** The steps of startup recovery and of reconcilePromotion. */
  predicate IsRecoveryStep(ev: Event) {
    || ev.MoveFile? || ev.FinishRecovery? || ev.Settle?
    || ev.WriteLock? || ev.Switch? || ev.RemoveGeneration? || ev.PopCleanup? || ev.ClearIntent?
  }

  // ---- The measure ----

  function Count(place: Option<string>): nat {
    if place.Some? then 1 else 0
  }

  /** Operations left for one entry. */
  function Cost(m: Machine, index: nat): nat
    requires index < |Entries(m)|
  {
    var e := Entries(m)[index];
    var v := ViewAt(m, e);
    if ModeOf(m).PromoteMode? || IsConfigIndex(m, index) then Count(v.quarantine) + Count(v.tombstone)
    else Distance(e, v)
  }

  function TotalCost(m: Machine, n: nat): nat
    requires n <= |Entries(m)|
  {
    if n == 0 then 0 else TotalCost(m, n - 1) + Cost(m, n - 1)
  }

  predicate HeadExists(m: Machine) {
    m.state.pendingCleanup != [] && m.state.pendingCleanup[0] in m.generations
  }

  /** Candidate, lock and artifacts first, then the cleanup list, then the intent, as one number. */
  function Remaining(m: Machine): nat {
    var s := m.state;
    if s.promotion.Some? then
      if s.candidate.Some? then
        (if m.lock == Some(s.promotion.value.lock) then 0 else 1)
        + TotalCost(m, |Entries(m)|) + 2 * |s.pendingCleanup| + 4
      else 2 * |s.pendingCleanup| + (if HeadExists(m) then 1 else 0) + 2
    else if s.transaction.Some? then TotalCost(m, |Entries(m)|) + 2
    else if m.proc.Idle? then 0
    else 1
  }

  lemma {:induction false} OneCostDrops(m: Machine, w: Machine, index: nat, n: nat)
    requires Entries(w) == Entries(m) && index < |Entries(m)| && n <= |Entries(m)|
    requires forall i :: 0 <= i < |Entries(m)| && i != index ==> Cost(w, i) == Cost(m, i)
    requires Cost(w, index) < Cost(m, index)
    ensures if index < n then TotalCost(w, n) < TotalCost(m, n) else TotalCost(w, n) == TotalCost(m, n)
  {
    if n > 0 {
      OneCostDrops(m, w, index, n - 1);
    }
  }

  // ---- Every productive step decreases the measure ----

  lemma MovedCost(m: Machine, index: nat, move: Move)
    requires JournalShape(m.state) && EntriesOk(ModeOf(m), m)
    requires ModeOf(m).RecoverMode? || ModeOf(m).PromoteMode?
    requires Enabled(m, MoveFile(index, move)) && Undisturbed(m, MoveFile(index, move))
    ensures var w := Step(m, MoveFile(index, move));
      && Entries(w) == Entries(m)
      && Cost(w, index) < Cost(m, index)
      && forall i :: 0 <= i < |Entries(m)| && i != index ==> Cost(w, i) == Cost(m, i)
  {
    hide IsName, JournalOf;
    var e := Entries(m)[index];
    var v := ViewAt(m, e);
    WithViewFrame(m, Entries(m), index, After(e, v, move));
    hide Separated, WithView, ViewOf, EntriesOk;
    if ModeOf(m).RecoverMode? && !IsConfigIndex(m, index) {
      MoveApproachesOriginal(e, v);
    }
  }

  lemma MoveDecreases(m: Machine, index: nat, move: Move)
    requires JournalShape(m.state) && EntriesOk(ModeOf(m), m) && m.proc.Recovering?
    requires Enabled(m, MoveFile(index, move)) && Undisturbed(m, MoveFile(index, move))
    ensures Remaining(Step(m, MoveFile(index, move))) < Remaining(m)
  {
    var w := Step(m, MoveFile(index, move));
    assert ModeOf(m).RecoverMode? || Committing(m);
    MovedCost(m, index, move);
    OneCostDrops(m, w, index, |Entries(m)|);
    hide Cost, TotalCost, EntriesOk, JournalShape, MoveAllowed, ViewAt, After, Undisturbed;
  }

  lemma {:induction false} LockKeepsCost(m: Machine, n: nat)
    requires m.state.promotion.Some? && n <= |Entries(m)|
    ensures TotalCost(Step(m, WriteLock), n) == TotalCost(m, n)
  {
    if n > 0 {
      LockKeepsCost(m, n - 1);
    }
  }

  lemma OtherStepDecreases(m: Machine, ev: Event)
    requires m.proc.Recovering? && ProcOk(m) && CleanupOk(m) && LockOk(m) && ArtifactsOk(m) && JournalShape(m.state)
    requires IsRecoveryStep(ev) && !ev.MoveFile? && Enabled(m, ev) && Step(m, ev) != m
    ensures Remaining(Step(m, ev)) < Remaining(m)
  {
    if ev.RemoveGeneration? && !HeadExists(m) {
      RemovalOfNothing(m, m.state.pendingCleanup[0]);
    }
    if ev.WriteLock? {
      LockKeepsCost(m, |Entries(m)|);
    }
    hide TotalCost, Cost, ViewAt, ArtifactsOk, Separated, IsName, GenerationPrefix, Holds, ValidHashes;
  }

  lemma StepDecreases(world: World, m: Machine, ev: Event)
    requires Inv(world, m) && m.proc.Recovering? && IsRecoveryStep(ev)
    requires Enabled(m, ev) && Undisturbed(m, ev) && Step(m, ev) != m
    ensures Remaining(Step(m, ev)) < Remaining(m)
  {
    hide Remaining, Step, Enabled, Undisturbed, ProcOk, CleanupOk, ArtifactsOk, JournalShape, EntriesOk, LiveOk, LockOk;
    if ev.MoveFile? {
      MoveDecreases(m, ev.index, ev.move);
    } else {
      OtherStepDecreases(m, ev);
    }
  }

  /** Nothing lies below a directory that does not exist. */
  lemma RemovalOfNothing(m: Machine, id: string)
    requires ArtifactsOk(m) && IsName(id) && id !in m.generations
    ensures WithoutGeneration(m, id) == m
  {
    hide IsName, GenerationPrefix, IsArtifactOf;
    var w := WithoutGeneration(m, id);
    assert w.generations == m.generations;
    assert w.artifacts == m.artifacts;
  }

  // ---- Some step is always enabled ----

  /** The file operation the entry still needs under the protocol in force. */
  function Work(m: Machine, index: nat): Option<Move>
    requires index < |Entries(m)|
  {
    var e := Entries(m)[index];
    var v := ViewAt(m, e);
    if ModeOf(m).PromoteMode? then
      if v.quarantine.Some? then Some(DropQuarantine) else if v.tombstone.Some? then Some(DropTombstone) else None
    else
      var next := if IsConfigIndex(m, index) then NextConfigMove(e, v) else NextMove(e, v);
      if next.Do? then Some(next.move) else None
  }

  /** The first entry from `from` on that still needs an operation. */
  function FirstBusy(m: Machine, from: nat): (r: nat)
    requires from <= |Entries(m)|
    ensures from <= r <= |Entries(m)|
    ensures r < |Entries(m)| ==> Work(m, r).Some?
    ensures forall i :: from <= i < r ==> Work(m, i).None?
    decreases |Entries(m)| - from
  {
    if from == |Entries(m)| || Work(m, from).Some? then from else FirstBusy(m, from + 1)
  }

  /** The next durable step in the order of the code. */
  function NextRecovery(m: Machine): Event {
    var s := m.state;
    if s.promotion.Some? then
      if s.candidate.Some? then
        if m.lock != Some(s.promotion.value.lock) then WriteLock
        else
          var i := FirstBusy(m, 0);
          if i < |Entries(m)| then MoveFile(i, Work(m, i).value) else Switch
      else if s.pendingCleanup != [] then (if HeadExists(m) then RemoveGeneration else PopCleanup)
      else ClearIntent
    else if s.transaction.Some? then
      var i := FirstBusy(m, 0);
      if i < |Entries(m)| then MoveFile(i, Work(m, i).value) else FinishRecovery
    else Settle
  }

  lemma NextRecoveryEnabled(world: World, m: Machine)
    requires Inv(world, m) && m.proc.Recovering?
    ensures var ev := NextRecovery(m);
      IsRecoveryStep(ev) && Enabled(m, ev) && Undisturbed(m, ev) && Step(m, ev) != m
  {
    hide EntriesOk, LiveOk, ArtifactsOk, JournalOf, Separated, ValidTransactionState, IsName, RecordOk,
      ConsistentGeneration;
    if m.state.transaction.None? {
      NextOutsideTransaction(m);
    } else if m.state.promotion.None? {
      NextRollback(m);
    } else {
      NextPromotion(m);
    }
  }

  lemma NextOutsideTransaction(m: Machine)
    requires m.state.transaction.None? && m.state.candidate.None? && m.proc.Recovering? && CleanupOk(m)
    ensures var ev := NextRecovery(m);
      IsRecoveryStep(ev) && Enabled(m, ev) && Undisturbed(m, ev) && Step(m, ev) != m
  {
    hide IsName, GenerationPrefix;
  }

  lemma NextRollback(m: Machine)
    requires JournalShape(m.state) && EntriesOk(ModeOf(m), m) && ModeOf(m).RecoverMode?
    ensures var ev := NextRecovery(m);
      IsRecoveryStep(ev) && Enabled(m, ev) && Undisturbed(m, ev) && Step(m, ev) != m
  {
    var i := FirstBusy(m, 0);
    if i < |Entries(m)| {
      WorkEnabled(m, i);
      BusyMoves(m, i);
    } else {
      NothingBusyFinishes(m);
    }
    hide FirstBusy, Work, EntriesOk, JournalShape, Enabled, Undisturbed, ViewAt, After;
  }

  lemma NextPromotion(m: Machine)
    requires JournalShape(m.state) && EntriesOk(ModeOf(m), m) && ModeOf(m).PromoteMode?
    ensures var ev := NextRecovery(m);
      IsRecoveryStep(ev) && Enabled(m, ev) && Undisturbed(m, ev) && Step(m, ev) != m
  {
    if m.lock == Some(m.state.promotion.value.lock) {
      var i := FirstBusy(m, 0);
      if i < |Entries(m)| {
        WorkEnabled(m, i);
        BusyMoves(m, i);
      } else {
        NothingBusySwitches(m);
      }
      hide FirstBusy, Work, EntriesOk, Enabled, Undisturbed, ViewAt, After, Separated, IsName, ValidHashes;
    } else {
      hide FirstBusy, Work, EntriesOk, ViewAt, After, Separated, IsName, ValidHashes;
    }
  }

  lemma WorkEnabled(m: Machine, index: nat)
    requires JournalShape(m.state) && EntriesOk(ModeOf(m), m) && index < |Entries(m)| && Work(m, index).Some?
    requires ModeOf(m).RecoverMode? || Committing(m)
    ensures var ev := MoveFile(index, Work(m, index).value); Enabled(m, ev) && Undisturbed(m, ev)
  {
    hide IsName, Separated, JournalOf, ViewAt;
    var e := Entries(m)[index];
    assert ValidHashes(e);
    if IsConfigIndex(m, index) {
      assert ConfigOk(ModeOf(m), e, ViewAt(m, e));
    } else {
      assert EntryOk(ModeOf(m), e, ViewAt(m, e));
    }
  }

  lemma BusyMoves(m: Machine, index: nat)
    requires JournalShape(m.state) && EntriesOk(ModeOf(m), m) && index < |Entries(m)| && Work(m, index).Some?
    requires ModeOf(m).RecoverMode? || Committing(m)
    ensures Step(m, MoveFile(index, Work(m, index).value)) != m
  {
    WorkEnabled(m, index);
    MovedCost(m, index, Work(m, index).value);
    hide Step, Cost, Work, EntriesOk, Enabled, Undisturbed;
  }

  lemma NothingBusyFinishes(m: Machine)
    requires JournalShape(m.state) && EntriesOk(ModeOf(m), m) && ModeOf(m).RecoverMode?
    requires forall i :: 0 <= i < |Entries(m)| ==> Work(m, i).None?
    ensures Enabled(m, FinishRecovery) && Undisturbed(m, FinishRecovery)
  {
    hide IsName, Separated, JournalOf;
    forall i | 0 <= i < |m.state.transaction.value.entries|
      ensures ViewAt(m, Entries(m)[i]) == Original(Entries(m)[i])
    {
      var e := Entries(m)[i];
      assert Work(m, i).None? && ValidHashes(e) && EntryOk(RecoverMode, e, ViewAt(m, e));
      RefusesExactly(e, ViewAt(m, e));
    }
    if m.state.transaction.value.config.Some? {
      var n := |m.state.transaction.value.entries|;
      assert Entries(m)[n] == m.state.transaction.value.config.value && Work(m, n).None?;
    }
  }

  lemma NothingBusySwitches(m: Machine)
    requires JournalShape(m.state) && EntriesOk(ModeOf(m), m) && ModeOf(m).PromoteMode? && m.state.candidate.Some?
    requires m.lock == Some(m.state.promotion.value.lock)
    requires forall i :: 0 <= i < |Entries(m)| ==> Work(m, i).None?
    ensures Enabled(m, Switch)
  {
    hide IsName, Separated, JournalOf;
    forall i | 0 <= i < |Entries(m)|
      ensures ViewAt(m, Entries(m)[i]).quarantine.None? && ViewAt(m, Entries(m)[i]).tombstone.None?
    {
      assert Work(m, i).None?;
    }
  }

  // ---- Recovery runs ----

  /** A run of productive recovery steps, in any order the guards allow. */
  ghost predicate RecoveryRun(m: Machine, run: seq<Event>)
    decreases |run|
  {
    run == [] ||
    (&& m.proc.Recovering?
     && IsRecoveryStep(run[0]) && Enabled(m, run[0]) && Undisturbed(m, run[0])
     && Step(m, run[0]) != m
     && RecoveryRun(Step(m, run[0]), run[1..]))
  }

  /** No recovery is longer than the measure of the state it starts from. */
  lemma {:induction false} RecoveryTerminates(world: World, m: Machine, run: seq<Event>)
    requires Inv(world, m) && RecoveryRun(m, run)
    ensures Inv(world, Exec(m, run))
    ensures |run| + Remaining(Exec(m, run)) <= Remaining(m)
    decreases |run|
  {
    if run != [] {
      hide Inv, Enabled, Undisturbed, Step, Remaining, IsRecoveryStep;
      StepPreserves(world, m, run[0]);
      StepDecreases(world, m, run[0]);
      RecoveryTerminates(world, Step(m, run[0]), run[1..]);
    }
  }

  /** From every crash state, following the code's order reaches idle. */
  lemma {:induction false} RecoveryCompletes(world: World, m: Machine) returns (run: seq<Event>)
    requires Inv(world, m) && (m.proc.Recovering? || m.proc.Idle?)
    ensures RecoveryRun(m, run) && Exec(m, run).proc.Idle?
    decreases Remaining(m)
  {
    if m.proc.Idle? {
      run := [];
    } else {
      var ev := NextRecovery(m);
      NextRecoveryEnabled(world, m);
      StepPreserves(world, m, ev);
      StepDecreases(world, m, ev);
      RecoveryStepProc(m, ev);
      hide Inv, Enabled, Undisturbed, Step, Remaining, NextRecovery, IsRecoveryStep;
      var rest := RecoveryCompletes(world, Step(m, ev));
      run := [ev] + rest;
      assert run[1..] == rest;
    }
  }

  lemma RecoveryStepProc(m: Machine, ev: Event)
    requires IsRecoveryStep(ev) && m.proc.Recovering?
    ensures Step(m, ev).proc.Recovering? || Step(m, ev).proc.Idle?
  {
    hide ViewAt, After;
  }

  // ---- Confluence ----

  /** The records a completed recovery or promotion leaves. */
  function Destination(s: State): State {
    if s.promotion.Some? then
      (if s.candidate.Some? then SwitchedState(s) else s).(promotion := None, pendingCleanup := [])
    else if s.transaction.Some? then RecoveredState(s)
    else s
  }

  lemma StepKeepsDestination(m: Machine, ev: Event)
    requires Ledger(m) && m.proc.Recovering? && IsRecoveryStep(ev) && Enabled(m, ev)
    ensures Destination(Step(m, ev).state) == Destination(m.state)
    ensures m.state.promotion.None? ==> Step(m, ev).lock == m.lock
    ensures forall id :: id in m.state.pendingCleanup ==>
      id in Step(m, ev).state.pendingCleanup || id !in Step(m, ev).generations
    ensures Step(m, ev).generations.Keys <= m.generations.Keys
  {
    hide LiveOk, EntriesOk, ArtifactsOk, JournalOf, IsName, RecordOk, ConsistentGeneration, MoveAllowed, After,
      ViewAt, Holds;
  }

  /**
   * Every way of finishing ends in the same place: with an intent, the candidate is Active, the
   * old Active is Previous, its lock is durable and everything pending is gone; without one,
   * Active and lock are untouched and the candidate is the failure record.
   */
  lemma {:induction false} RecoveryConfluent(world: World, m: Machine, run: seq<Event>)
    requires Inv(world, m) && RecoveryRun(m, run) && Exec(m, run).proc.Idle?
    ensures var w := Exec(m, run);
      && w.state == Destination(m.state)
      && w.live - {CONFIG_PATH} == Installation(world, Chosen(m))
      && w.lock == (if Chosen(m).Some? then Some(Chosen(m).value.lock) else None)
      && (forall id :: id in m.state.pendingCleanup ==> id !in w.generations)
    decreases |run|
  {
    if run == [] {
      IdleNamesChosen(world, m);
      IdleRecordsNameChosen(m);
      hide EntriesOk, LiveOk, ArtifactsOk, JournalOk;
    } else {
      StepPreserves(world, m, run[0]);
      StepRefines(m, run[0]);
      StepKeepsDestination(m, run[0]);
      var next := Step(m, run[0]);
      hide Inv, Enabled, Undisturbed, Step, Destination, Chosen, Installation, RecordNames;
      RecoveryConfluent(world, next, run[1..]);
      GenerationsShrink(world, next, run[1..]);
    }
  }

  lemma {:induction false} GenerationsShrink(world: World, m: Machine, run: seq<Event>)
    requires Inv(world, m) && RecoveryRun(m, run)
    ensures Exec(m, run).generations.Keys <= m.generations.Keys
    decreases |run|
  {
    if run != [] {
      StepPreserves(world, m, run[0]);
      StepKeepsDestination(m, run[0]);
      hide Inv, Enabled, Undisturbed, Step, Destination;
      GenerationsShrink(world, Step(m, run[0]), run[1..]);
    }
  }

  /** What the destination is after an intent, field by field. */
  lemma PromotionDestination(world: World, m: Machine)
    requires Inv(world, m) && m.state.promotion.Some?
    ensures var d, s := Destination(m.state), m.state;
      && d.active.Some? && d.active.value.id == s.promotion.value.generationID
      && d.candidate.None? && d.transaction.None? && d.promotion.None? && d.pendingCleanup == []
      && (s.candidate.Some? ==>
            && d.active.value.status.ActiveStatus?
            && d.active.value.lockDigest == s.promotion.value.lock.digest
            && d.failed.None?
            && d.previous.Some? == s.active.Some?
            && (s.active.Some? ==> d.previous.value.id == s.active.value.id && d.previous.value.status.PreviousStatus?))
      && d.steamBuild == s.steamBuild && d.runtime == s.runtime
  {
    hide LiveOk, EntriesOk, ArtifactsOk, JournalOf, IsName;
  }

  /** What the destination is after a rollback, field by field. */
  lemma RollbackDestination(m: Machine)
    requires JournalShape(m.state) && m.state.promotion.None? && m.state.transaction.Some?
    ensures var d, s := Destination(m.state), m.state;
      && d.active == s.active && d.previous == s.previous && d.pendingCleanup == s.pendingCleanup
      && d.candidate.None? && d.transaction.None? && d.promotion.None?
      && d.failed.Some? && d.failed.value.id == s.candidate.value.id && d.failed.value.status.FailedStatus?
      && d.failed.value.lockDigest == s.candidate.value.lockDigest
      && d.steamBuild == s.steamBuild && d.runtime == s.runtime
  {
    hide IsName, Separated;
  }
}
