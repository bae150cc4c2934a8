/**
 * The durable state as objects: every operation of the controller on it is one atomic step of
 * the protocol, may fail before, after or (for renames between directories) in the middle of
 * its effect, and may be followed by writes of the world around it.
 */
module Disks {
  import opened Prelude
  import opened Packages
  import opened Records
  import opened Journal
  import opened EntryRecovery
  import opened Machine
  import opened Invariant
  import opened Ledgers
  import opened Preservation
  import opened Validation

  /** What the world may do to live files; `quiet` says no one but the running game wrote. */
  predicate Drifted(before: Machine, after: Machine, quiet: bool) {
    && after == before.(live := after.live)
    && (quiet ==>
          && after.live - {CONFIG_PATH} == before.live - {CONFIG_PATH}
          && (CONFIG_PATH in before.live <==> CONFIG_PATH in after.live)
          && (before.game.None? ==> after.live == before.live))
  }

  /** The three ways a step on a file can end. */
  predicate Ended(before: Machine, ev: Event, after: Machine, quiet: bool) {
    || Drifted(before, after, quiet)
    || Drifted(Step(before, ev), after, quiet)
    || (ev.MoveFile? && Drifted(Step(before, TearFile(ev.index)), after, quiet))
  }

  ghost predicate Sound(world: World, outside: bool, m: Machine) {
    Ledger(m) && (!outside ==> Inv(world, m))
  }

  ghost predicate Taken(outside: bool, m: Machine, ev: Event, w: Machine) {
    Enabled(m, ev) && (!outside ==> Undisturbed(m, ev)) && w == Step(m, ev)
  }

  /**
   * `m` is the end of the history `states`, one step of the protocol after the other: every
   * state on the way satisfies the ledger and, in a calm history, the invariant.
   */
  ghost predicate Grounded(world: World, outside: bool, states: seq<Machine>, log: seq<Event>, m: Machine) {
    && |states| == |log| + 1 && m == states[|log|]
    && (forall n {:trigger Sound(world, outside, states[n])} :: 0 <= n <= |log| ==> Sound(world, outside, states[n]))
    && (forall n {:trigger log[n], states[n]} :: 0 <= n < |log| ==> Taken(outside, states[n], log[n], states[n + 1]))
  }

  lemma SoundNow(world: World, outside: bool, states: seq<Machine>, log: seq<Event>, m: Machine)
    requires Grounded(world, outside, states, log, m)
    ensures Sound(world, outside, m)
  {
    hide Sound, Taken;
    assert Sound(world, outside, states[|log|]);
  }

  lemma Advance(world: World, outside: bool, states: seq<Machine>, log: seq<Event>, m: Machine, ev: Event, w: Machine)
    requires Grounded(world, outside, states, log, m) && Taken(outside, m, ev, w)
    ensures Grounded(world, outside, states + [w], log + [ev], w)
  {
    hide Sound, Taken, Step, Ledger, Inv, Enabled, Undisturbed;
    SoundNow(world, outside, states, log, m);
    SoundStep(world, outside, m, ev, w);
    forall n | 0 <= n <= |log + [ev]|
      ensures Sound(world, outside, (states + [w])[n])
    {
      if n <= |log| {
        assert Sound(world, outside, states[n]);
      }
    }
    forall n | 0 <= n < |log + [ev]|
      ensures Taken(outside, (states + [w])[n], (log + [ev])[n], (states + [w])[n + 1])
    {
      if n < |log| {
        assert Taken(outside, states[n], log[n], states[n + 1]);
      }
    }
  }

  lemma SoundStep(world: World, outside: bool, m: Machine, ev: Event, w: Machine)
    requires Sound(world, outside, m) && Taken(outside, m, ev, w)
    ensures Sound(world, outside, w)
  {
    hide Ledger, Inv, Enabled, Undisturbed, Step;
    StepKeepsLedger(m, ev);
    if !outside {
      StepPreserves(world, m, ev);
    }
  }

  /** The history of a disk is a run in the sense of Machine, calm if no one else wrote. */
  lemma {:induction false} HistoryIsRun(world: World, outside: bool, states: seq<Machine>, log: seq<Event>, m: Machine,
                                        from: nat)
    requires Grounded(world, outside, states, log, m) && from <= |log|
    ensures Legal(states[from], log[from..]) && Exec(states[from], log[from..]) == m
    ensures !outside ==> Calm(states[from], log[from..])
    decreases |log| - from
  {
    hide Step, Enabled, Undisturbed, Sound;
    if from < |log| {
      HistoryIsRun(world, outside, states, log, m, from + 1);
      assert Taken(outside, states[from], log[from], states[from + 1]);
      assert log[from..][0] == log[from] && log[from..][1..] == log[from + 1..];
    }
  }

  /** An outside edit: the live files before and after it. */
  datatype Edit = Edit(before: map<string, string>, after: map<string, string>)

  /** What may still go wrong, the last outside edit, and the live files; `quiet` says that no game runs. */
  datatype Scene = Scene(faults: nat, edits: nat, quiet: bool, edit: Edit, live: map<string, string>)

  /** Nothing failed, and there was no outside edit, or one behind everything else, when the live files were `live`. */
  predicate EditedLast(before: Scene, after: Scene, live: map<string, string>) {
    && after.quiet == before.quiet && after.faults <= before.faults && after.edits <= before.edits
    && (after.faults == before.faults ==>
          if after.edits == before.edits then after.edit == before.edit && (after.quiet ==> after.live == live)
          else after.edits + 1 == before.edits && after.edit == Edit(live, after.live))
  }

  datatype Fault = NoFault | Before | Afterwards | Torn

  class Disk {
    var live: map<string, string>
    var artifacts: map<string, string>
    var state: State
    var lock: Option<PackageLock>
    var generations: map<string, Generation>
    var backups: map<string, string>
    var proc: Proc
    var game: Option<Running>

    var faults: nat          // operations that may still fail
    var edits: nat           // times others may still write live files
    ghost const outside: bool
    ghost const world: World
    ghost const first: Machine   // where the history begins
    ghost var states: seq<Machine>
    ghost var log: seq<Event>
    ghost var edit: Edit         // the last outside edit

    ghost function Around(): Scene
      reads this
    {
      Scene(faults, edits, game.None?, edit, live)
    }

    function M(): Machine
      reads this
    {
      Machine(live, artifacts, state, lock, generations, backups, proc, game)
    }

    /** The durable state is the end of a run of the protocol: a calm one if no one else writes. */
    ghost predicate Valid()
      reads this
    {
      Grounded(world, outside, states, log, M()) && states[0] == first && (!outside ==> edits == 0)
    }

    ghost predicate Permitted(ev: Event)
      reads this
    {
      Enabled(M(), ev) && (!outside ==> Undisturbed(M(), ev))
    }

    /** An existing installation, left in any state a run can leave. */
    constructor (m: Machine, faults: nat, edits: nat, ghost outside: bool, ghost world: World)
      requires Ledger(m) && (!outside ==> edits == 0 && Inv(world, m))
      ensures Valid() && M() == m && this.faults == faults && this.edits == edits
      ensures this.outside == outside && this.world == world && first == m && states == [m] && log == []
    {
      live, artifacts, state, lock, generations := m.live, m.artifacts, m.state, m.lock, m.generations;
      backups, proc, game := m.backups, m.proc, m.game;
      this.faults, this.edits, this.outside, this.world, this.first := faults, edits, outside, world, m;
      states, log, edit := [m], [], Edit(m.live, m.live);
      new;
      hide Ledger, Inv;
      assert Sound(world, outside, m);
      assert Machine(live, artifacts, state, lock, generations, backups, proc, game) == m;
    }

    /** One step of the protocol. */
    method Write(ghost ev: Event, next: Machine)
      requires Valid() && Permitted(ev) && next == Step(M(), ev)
      modifies this
      ensures Valid() && M() == next && log == old(log) + [ev] && states == old(states) + [next]
      ensures faults == old(faults) && edits == old(edits) && edit == old(edit)
    {
      assert |states| > 0;
      Advance(world, outside, states, log, M(), ev, next);
      hide Grounded, Step, Enabled, Undisturbed;
      Assign(ev, next);
    }

    method Assign(ghost ev: Event, next: Machine)
      modifies this
      ensures M() == next && log == old(log) + [ev] && states == old(states) + [next]
      ensures faults == old(faults) && edits == old(edits) && edit == old(edit)
    {
      live, artifacts, state, lock, generations := next.live, next.artifacts, next.state, next.lock, next.generations;
      backups, proc, game := next.backups, next.proc, next.game;
      log, states := log + [ev], states + [next];
      assert M() == next;
    }

    /** The world acts: others write live files, or the running game rewrites its configuration. */
    method Environment()
      requires Valid()
      modifies this
      ensures Valid() && edits <= old(edits) && faults == old(faults)
      ensures Drifted(old(M()), M(), edits == old(edits)) && EditedLast(old(Around()), Around(), old(live))
    {
      hide Grounded;
      var acts: bool := *;
      if edits > 0 && acts {
        var files: map<string, string> := *;
        Write(Operate(files), M().(live := files));
        edits, edit := edits - 1, Edit(old(live), files);
      } else if game.Some? && CONFIG_PATH in live && acts {
        var content: string := *;
        Write(RewriteConfig(content), M().(live := live[CONFIG_PATH := content]));
      }
    }

    /** Chooses whether, and how, the next operation fails. */
    method NextFault() returns (fault: Fault)
      requires Valid()
      modifies this`faults
      ensures Valid() && M() == old(M())
      ensures if fault.NoFault? then faults == old(faults) else faults < old(faults)
    {
      fault := NoFault;
      var fails: bool := *;
      if faults > 0 && fails {
        faults := faults - 1;
        fault := Before;
        if * {
          fault := Afterwards;
        } else if * {
          fault := Torn;
        }
      }
      hide *;
    }

    // ---- Reading ----

    /** Store.Load: decodes state.json and validates its journal. */
    method Load() returns (ok: bool, s: State)
      requires Valid()
      modifies this`faults
      ensures Valid() && M() == old(M()) && faults <= old(faults) && edits == old(edits)
      ensures ok ==> s == state
      ensures !ok ==> faults < old(faults)
    {
      GroundedAccepts(world, outside, states, log, M());
      hide Grounded;
      var fault := NextFault();
      if !fault.NoFault? {
        return false, state;
      }
      s := state;
      ok := ValidateTransactionState(s);
    }

    /** snapshotFileBelow on the server directory. */
    method InspectLive(path: string) returns (ok: bool, found: Option<string>)
      requires Valid()
      modifies this
      ensures Valid() && faults <= old(faults) && edits <= old(edits)
      ensures Drifted(old(M()), M(), edits == old(edits)) && EditedLast(old(Around()), Around(), old(live))
      ensures ok ==> found == Get(old(live), path)
      ensures !ok ==> faults < old(faults)
    {
      hide Grounded;
      var fault := NextFault();
      found := Get(live, path);
      Environment();
      return fault.NoFault?, found;
    }

    /** snapshotFileBelow on the state directory. */
    method InspectArtifact(path: string) returns (ok: bool, found: Option<string>)
      requires Valid()
      modifies this`faults
      ensures Valid() && M() == old(M()) && faults <= old(faults) && edits == old(edits)
      ensures ok ==> found == Get(artifacts, path) && faults == old(faults)
      ensures !ok ==> faults < old(faults)
    {
      hide Grounded;
      var fault := NextFault();
      return fault.NoFault?, Get(artifacts, path);
    }

    /** fsync of the directories a file operation touched. */
    method Sync() returns (ok: bool)
      requires Valid()
      modifies this`faults
      ensures Valid() && M() == old(M()) && faults <= old(faults) && edits == old(edits)
      ensures !ok ==> faults < old(faults)
    {
      hide Grounded;
      var fault := NextFault();
      return fault.NoFault?;
    }

    // ---- Moving files ----

    /** moveFileNoReplace from the server directory to a quarantine or tombstone path. */
    method MoveAside(e: JournalEntry, ghost index: nat, toTombstone: bool) returns (ok: bool)
      requires Valid() && index < |Entries(M())| && Entries(M())[index] == e
      requires e.relativePath in live && (if toTombstone then e.tombstonePath else e.quarantinePath) !in artifacts
        ==> Permitted(MoveFile(index, if toTombstone then Tombstone else Quarantine))
      modifies this
      ensures Valid() && faults <= old(faults) && edits <= old(edits)
      ensures var ev := MoveFile(index, if toTombstone then Tombstone else Quarantine);
        && Ended(old(M()), ev, M(), edits == old(edits))
        && (ok ==> Drifted(Step(old(M()), ev), M(), edits == old(edits)) && e.relativePath in old(live)
                   && (if toTombstone then e.tombstonePath else e.quarantinePath) !in old(artifacts))
        && (!ok ==>
              || faults < old(faults)
              || (&& Drifted(old(M()), M(), edits == old(edits))
                  && (|| e.relativePath !in old(live)
                      || (if toTombstone then e.tombstonePath else e.quarantinePath) in old(artifacts))))
      ensures var ev := MoveFile(index, if toTombstone then Tombstone else Quarantine);
        EditedLast(old(Around()), Around(), if ok then Step(old(M()), ev).live else old(live))
    {
      hide Grounded, Enabled, Undisturbed;
      var target := if toTombstone then e.tombstonePath else e.quarantinePath;
      ghost var move := if toTombstone then Tombstone else Quarantine;
      if e.relativePath !in live || target in artifacts {
        Environment();
        return false;
      }
      var fault := NextFault();
      if fault.Before? {
        Environment();
        return false;
      }
      if fault.Torn? {
        ok := Tear(e, index, live[e.relativePath], move);
        return false;
      }
      DiskSeparates(this, index);
      MoveAsideIs(M(), e, index, toTombstone);
      hide Step;
      Write(MoveFile(index, move),
            M().(live := live - {e.relativePath}, artifacts := artifacts[target := live[e.relativePath]]));
      Environment();
      return fault.NoFault?;
    }

    /** moveFileNoReplace from quarantine back to the server directory. */
    method MoveBack(e: JournalEntry, ghost index: nat) returns (ok: bool)
      requires Valid() && index < |Entries(M())| && Entries(M())[index] == e
      requires e.quarantinePath in artifacts && e.relativePath !in live ==> Permitted(MoveFile(index, Restore))
      modifies this
      ensures Valid() && faults <= old(faults) && edits <= old(edits)
      ensures var ev := MoveFile(index, Restore);
        && Ended(old(M()), ev, M(), edits == old(edits))
        && (ok ==> Drifted(Step(old(M()), ev), M(), edits == old(edits))
                   && e.quarantinePath in old(artifacts) && e.relativePath !in old(live))
        && (!ok ==>
              || faults < old(faults)
              || (&& Drifted(old(M()), M(), edits == old(edits))
                  && (e.quarantinePath !in old(artifacts) || e.relativePath in old(live))))
      ensures EditedLast(old(Around()), Around(),
                         if ok then Step(old(M()), MoveFile(index, Restore)).live else old(live))
    {
      hide Grounded, Enabled, Undisturbed;
      if e.quarantinePath !in artifacts || e.relativePath in live {
        Environment();
        return false;
      }
      var fault := NextFault();
      if fault.Before? {
        Environment();
        return false;
      }
      if fault.Torn? {
        ok := Tear(e, index, artifacts[e.quarantinePath], Restore);
        return false;
      }
      DiskSeparates(this, index);
      MoveBackIs(M(), e, index);
      hide Step;
      Write(MoveFile(index, Restore),
            M().(live := live[e.relativePath := artifacts[e.quarantinePath]],
              artifacts := artifacts - {e.quarantinePath}));
      Environment();
      return fault.NoFault?;
    }

    /** Power is lost with the new name of a moved original durable and the old one not yet gone. */
    method Tear(e: JournalEntry, ghost index: nat, content: string, ghost move: Move) returns (torn: bool)
      requires Valid() && index < |Entries(M())| && Entries(M())[index] == e && Permitted(MoveFile(index, move))
      requires move.Quarantine? || move.Restore? || move.Tombstone?
      requires if move.Restore? then Get(artifacts, e.quarantinePath) == Some(content)
               else Get(live, e.relativePath) == Some(content)
      modifies this
      ensures Valid() && faults == old(faults) && edits <= old(edits)
      ensures Ended(old(M()), MoveFile(index, move), M(), edits == old(edits))
    {
      hide Grounded, Enabled, Undisturbed;
      torn := e.original == ShaOf(content) && e.tombstonePath !in artifacts
        && (e.relativePath in live) != (e.quarantinePath in artifacts);
      if torn && proc.InApply? {
        torn := e.existed;
      } else if torn {
        torn := e.existed && e.relativePath !in live;
      }
      if torn {
        DiskSeparates(this, index);
        TornIs(M(), e, index, content, move);
        hide Step;
        Write(TearFile(index),
              M().(live := live[e.relativePath := content], artifacts := artifacts[e.quarantinePath := content],
                   proc := Recovering));
      }
      Environment();
    }

    /** publishServerFile: a new file appears at a path where there is none. */
    method Publish(e: JournalEntry, ghost index: nat, content: string) returns (ok: bool)
      requires Valid() && index < |Entries(M())| && Entries(M())[index] == e && e.installed == ShaOf(content)
      requires e.relativePath !in live ==> Permitted(MoveFile(index, Install))
      modifies this
      ensures Valid() && faults <= old(faults) && edits <= old(edits)
      ensures var ev := MoveFile(index, Install);
        && (|| Drifted(old(M()), M(), edits == old(edits))
            || Drifted(Step(old(M()), ev), M(), edits == old(edits)))
        && (ok ==> Drifted(Step(old(M()), ev), M(), edits == old(edits)) && e.relativePath !in old(live))
        && (!ok ==>
              || faults < old(faults)
              || (Drifted(old(M()), M(), edits == old(edits)) && e.relativePath in old(live)))
      ensures EditedLast(old(Around()), Around(),
                         if ok then Step(old(M()), MoveFile(index, Install)).live else old(live))
    {
      hide Grounded, Enabled, Undisturbed;
      if e.relativePath in live {
        Environment();
        return false;
      }
      var fault := NextFault();
      if fault.Before? {
        Environment();
        return false;
      }
      PublishIs(M(), e, index, content);
      hide Step;
      Write(MoveFile(index, Install), M().(live := live[e.relativePath := content]));
      Environment();
      return fault.NoFault?;
    }

    /** removeJournalArtifact: unlink after checking the content once more. */
    method RemoveArtifact(e: JournalEntry, ghost index: nat, tombstone: bool, expected: string) returns (ok: bool)
      requires Valid() && index < |Entries(M())| && Entries(M())[index] == e
      requires Get(artifacts, if tombstone then e.tombstonePath else e.quarantinePath) == Some(expected)
        ==> Permitted(MoveFile(index, if tombstone then DropTombstone else DropQuarantine))
      modifies this
      ensures Valid() && faults <= old(faults) && edits <= old(edits)
      ensures var ev := MoveFile(index, if tombstone then DropTombstone else DropQuarantine);
        && (|| Drifted(old(M()), M(), edits == old(edits))
            || Drifted(Step(old(M()), ev), M(), edits == old(edits)))
        && (ok ==> Drifted(Step(old(M()), ev), M(), edits == old(edits)))
        && (!ok ==>
              || faults < old(faults)
              || Get(old(artifacts), if tombstone then e.tombstonePath else e.quarantinePath) != Some(expected))
    {
      hide Grounded, Enabled, Undisturbed;
      var target := if tombstone then e.tombstonePath else e.quarantinePath;
      ghost var move := if tombstone then DropTombstone else DropQuarantine;
      if Get(artifacts, target) != Some(expected) {
        Environment();
        return false;
      }
      var fault := NextFault();
      if fault.Before? {
        Environment();
        return false;
      }
      DiskSeparates(this, index);
      RemoveIs(M(), e, index, tombstone);
      hide Step;
      Write(MoveFile(index, move), M().(artifacts := artifacts - {target}));
      Environment();
      return fault.NoFault?;
    }

    // ---- Records and directories ----

    /** Store.Save: validates, then replaces state.json atomically. */
    method SaveState(s: State, next: Proc, kept: map<string, string>, ghost ev: Event) returns (ok: bool)
      requires Valid() && Permitted(ev) && M().(state := s, proc := next, backups := kept) == Step(M(), ev)
      modifies this
      ensures Valid() && faults <= old(faults) && edits <= old(edits)
      ensures || Drifted(old(M()), M(), edits == old(edits))
              || Drifted(Step(old(M()), ev), M(), edits == old(edits))
      ensures ok ==> Drifted(Step(old(M()), ev), M(), edits == old(edits))
      ensures !ok ==> faults < old(faults)
      ensures EditedLast(old(Around()), Around(), old(live))
    {
      hide Grounded, Enabled, Undisturbed, Step;
      Advance(world, outside, states, log, M(), ev, Step(M(), ev));
      GroundedAccepts(world, outside, states + [Step(M(), ev)], log + [ev], Step(M(), ev));
      var valid := ValidateTransactionState(s);
      var fault := NextFault();
      if !valid || fault.Before? {
        Environment();
        return false;
      }
      Write(ev, M().(state := s, proc := next, backups := kept));
      Environment();
      return fault.NoFault?;
    }

    /** Store.SavePackageLock. */
    method SaveLock(l: PackageLock) returns (ok: bool)
      requires Valid() && state.promotion.Some? && state.promotion.value.lock == l
      modifies this
      ensures Valid() && faults <= old(faults) && edits <= old(edits)
      ensures || Drifted(old(M()), M(), edits == old(edits))
              || Drifted(Step(old(M()), WriteLock), M(), edits == old(edits))
      ensures ok ==> Drifted(Step(old(M()), WriteLock), M(), edits == old(edits))
      ensures !ok ==> faults < old(faults)
    {
      hide Grounded;
      var fault := NextFault();
      if fault.Before? {
        Environment();
        return false;
      }
      Write(WriteLock, M().(lock := Some(l)));
      Environment();
      return fault.NoFault?;
    }

    /** removeGeneration: the directory and everything below it, artifacts included. */
    method RemoveTree(id: string, ghost ev: Event) returns (ok: bool)
      requires Valid() && Permitted(ev) && Step(M(), ev) == WithoutGeneration(M(), id)
      modifies this
      ensures Valid() && faults <= old(faults) && edits <= old(edits)
      ensures || Drifted(old(M()), M(), edits == old(edits))
              || Drifted(WithoutGeneration(old(M()), id), M(), edits == old(edits))
      ensures ok ==> Drifted(WithoutGeneration(old(M()), id), M(), edits == old(edits))
      ensures !ok ==> faults < old(faults)
    {
      hide Grounded, Enabled, Undisturbed, Step;
      var fault := NextFault();
      if fault.Before? {
        Environment();
        return false;
      }
      Write(ev, WithoutGeneration(M(), id));
      Environment();
      return fault.NoFault?;
    }

    /** Changes of what the process is doing, and of whether the game runs; nothing durable. */
    method Turn(next: Proc, running: Option<Running>, ghost ev: Event)
      requires Valid() && Permitted(ev) && Step(M(), ev) == M().(proc := next, game := running)
      modifies this
      ensures Valid() && M() == Step(old(M()), ev) && faults == old(faults) && edits == old(edits)
    {
      hide Grounded, Enabled, Undisturbed, Step;
      Write(ev, M().(proc := next, game := running));
    }
  }

  // ---- What each operation does to the fields ----

  lemma GroundedAccepts(world: World, outside: bool, states: seq<Machine>, log: seq<Event>, m: Machine)
    requires Grounded(world, outside, states, log, m)
    ensures ValidTransactionState(m.state)
  {
    SoundNow(world, outside, states, log, m);
    hide RecordsPart, Inv, Grounded, ValidTransactionState;
  }

  lemma PutSame(m: map<string, string>, k: string)
    ensures Put(m, k, Get(m, k)) == m
  {
  }

  lemma LedgerSeparates(m: Machine, index: nat)
    requires Ledger(m) && index < |Entries(m)|
    ensures Entries(m)[index].quarantinePath != Entries(m)[index].tombstonePath
    ensures ValidHashes(Entries(m)[index])
  {
    hide ValidTransactionState, RecordsPart, ArtifactsOk, JournalOf;
  }

  lemma DiskSeparates(d: Disk, index: nat)
    requires d.Valid() && index < |Entries(d.M())|
    ensures Entries(d.M())[index].quarantinePath != Entries(d.M())[index].tombstonePath
    ensures ValidHashes(Entries(d.M())[index])
  {
    SoundNow(d.world, d.outside, d.states, d.log, d.M());
    hide Ledger, Inv, Grounded, ValidHashes;
    LedgerSeparates(d.M(), index);
  }

  lemma MoveAsideIs(m: Machine, e: JournalEntry, index: nat, toTombstone: bool)
    requires index < |Entries(m)| && Entries(m)[index] == e && e.relativePath in m.live
    requires e.quarantinePath != e.tombstonePath
    requires (if toTombstone then e.tombstonePath else e.quarantinePath) !in m.artifacts
    ensures var target := if toTombstone then e.tombstonePath else e.quarantinePath;
      Step(m, MoveFile(index, if toTombstone then Tombstone else Quarantine)) ==
        m.(live := m.live - {e.relativePath}, artifacts := m.artifacts[target := m.live[e.relativePath]])
  {
    if toTombstone {
      PutSame(m.artifacts, e.quarantinePath);
    } else {
      assert Put(m.artifacts[e.quarantinePath := m.live[e.relativePath]], e.tombstonePath,
        Get(m.artifacts, e.tombstonePath))
        == m.artifacts[e.quarantinePath := m.live[e.relativePath]];
    }
  }

  lemma MoveBackIs(m: Machine, e: JournalEntry, index: nat)
    requires index < |Entries(m)| && Entries(m)[index] == e && e.quarantinePath != e.tombstonePath
    requires e.quarantinePath in m.artifacts && e.relativePath !in m.live
    ensures Step(m, MoveFile(index, Restore)) ==
      m.(live := m.live[e.relativePath := m.artifacts[e.quarantinePath]], artifacts := m.artifacts - {e.quarantinePath})
  {
    assert Put(m.artifacts - {e.quarantinePath}, e.tombstonePath, Get(m.artifacts, e.tombstonePath))
      == m.artifacts - {e.quarantinePath};
  }

  lemma PublishIs(m: Machine, e: JournalEntry, index: nat, content: string)
    requires index < |Entries(m)| && Entries(m)[index] == e && e.installed == ShaOf(content)
    ensures Step(m, MoveFile(index, Install)) == m.(live := m.live[e.relativePath := content])
  {
    PutSame(m.artifacts, e.quarantinePath);
    PutSame(m.artifacts, e.tombstonePath);
  }

  lemma RemoveIs(m: Machine, e: JournalEntry, index: nat, tombstone: bool)
    requires index < |Entries(m)| && Entries(m)[index] == e && e.quarantinePath != e.tombstonePath
    ensures var target := if tombstone then e.tombstonePath else e.quarantinePath;
      Step(m, MoveFile(index, if tombstone then DropTombstone else DropQuarantine)) ==
        m.(artifacts := m.artifacts - {target})
  {
    PutSame(m.live, e.relativePath);
    if tombstone {
      PutSame(m.artifacts, e.quarantinePath);
    } else {
      assert Put(m.artifacts - {e.quarantinePath}, e.tombstonePath, Get(m.artifacts, e.tombstonePath))
        == m.artifacts - {e.quarantinePath};
    }
  }

  lemma TornIs(m: Machine, e: JournalEntry, index: nat, content: string, move: Move)
    requires index < |Entries(m)| && Entries(m)[index] == e && e.quarantinePath != e.tombstonePath
    requires Enabled(m, MoveFile(index, move))
    requires move.Quarantine? || move.Restore? || move.Tombstone?
    requires e.existed && e.original == ShaOf(content) && e.tombstonePath !in m.artifacts
    requires if move.Restore? then Get(m.artifacts, e.quarantinePath) == Some(content)
             else Get(m.live, e.relativePath) == Some(content)
    requires (e.relativePath in m.live) != (e.quarantinePath in m.artifacts)
    requires !m.proc.InApply? ==> e.relativePath !in m.live
    ensures Enabled(m, TearFile(index)) && Undisturbed(m, TearFile(index))
    ensures Step(m, TearFile(index)) ==
      m.(live := m.live[e.relativePath := content], artifacts := m.artifacts[e.quarantinePath := content],
        proc := Recovering)
  {
    TearEffect(m, e, index, content);
    hide Put;
  }

  lemma TearEffect(m: Machine, e: JournalEntry, index: nat, content: string)
    requires index < |Entries(m)| && Entries(m)[index] == e && e.quarantinePath != e.tombstonePath
    requires e.original == ShaOf(content) && e.tombstonePath !in m.artifacts
    ensures Step(m, TearFile(index)) ==
      m.(live := m.live[e.relativePath := content], artifacts := m.artifacts[e.quarantinePath := content],
        proc := Recovering)
  {
    var a := m.artifacts[e.quarantinePath := content];
    assert a - {e.tombstonePath} == a;
  }
}
