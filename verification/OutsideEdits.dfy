/**
 * Runs in which anyone may write, replace or delete live files between any two steps: no step
 * of the controller destroys bytes that are not journaled.
 */
module OutsideEdits {
  import opened Prelude
  import opened Records
  import opened Journal
  import opened EntryRecovery
  import opened Machine
  import opened Invariant
  import opened Ledgers

  /** The bytes at an artifact path are the ones the journal, or a finished recovery, put there. */
  predicate Expendable(m: Machine, a: string)
    requires a in m.artifacts
  {
    || (exists i :: 0 <= i < |Entries(m)| && JournaledAt(Entries(m)[i], a, m.artifacts[a]))
    || (a in m.backups && m.backups[a] == m.artifacts[a])
  }

  predicate JournaledAt(e: JournalEntry, a: string, content: string) {
    || (a == e.quarantinePath && e.original == ShaOf(content))
    || (a == e.tombstonePath && e.tombstone == ShaOf(content))
  }

  /** Moved to a place that was empty before. */
  predicate MovedToArtifact(m: Machine, w: Machine, content: string) {
    exists a :: a in w.artifacts && a !in m.artifacts && w.artifacts[a] == content
  }

  predicate MovedToLive(m: Machine, w: Machine, content: string) {
    exists p :: p in w.live && p !in m.live && w.live[p] == content
  }

  /** Nothing live is overwritten or deleted, and only journaled bytes leave the state directory. */
  predicate Careful(m: Machine, w: Machine) {
    && (forall p :: p in m.live ==>
          Get(w.live, p) == Some(m.live[p]) || (p !in w.live && MovedToArtifact(m, w, m.live[p])))
    && (forall a :: a in m.artifacts ==>
          || Get(w.artifacts, a) == Some(m.artifacts[a])
          || (a !in w.artifacts && (MovedToLive(m, w, m.artifacts[a]) || Expendable(m, a))))
  }

  predicate IsOutside(ev: Event) {
    ev.Operate? || ev.RewriteConfig?
  }

  // ---- Every controller step is careful ----

  lemma StepIsCareful(m: Machine, ev: Event)
    requires Ledger(m) && Enabled(m, ev) && !IsOutside(ev)
    ensures Careful(m, Step(m, ev))
  {
    hide Ledger, Enabled, Step, Careful;
    match ev {
      case MoveFile(index, move) => MoveIsCareful(m, index, move);
      case TearFile(index) => TearIsCareful(m, index);
      case Discard(id) => DirectoryIsCareful(m, ev);
      case RemoveGeneration => DirectoryIsCareful(m, ev);
      case _ =>
        FilesUntouched(m, ev);
        UntouchedIsCareful(m, Step(m, ev));
    }
  }

  lemma DirectoryIsCareful(m: Machine, ev: Event)
    requires Ledger(m) && Enabled(m, ev) && (ev.Discard? || ev.RemoveGeneration?)
    ensures Careful(m, Step(m, ev))
  {
    hide Ledger, UnreferencedGeneration, WithoutGeneration, Careful;
    RemovalIsCareful(m, if ev.Discard? then ev.id else m.state.pendingCleanup[0]);
  }

  lemma FilesUntouched(m: Machine, ev: Event)
    requires Enabled(m, ev) && !IsOutside(ev) && !ev.MoveFile? && !ev.TearFile? && !ev.Discard? && !ev.RemoveGeneration?
    ensures Step(m, ev).live == m.live && Step(m, ev).artifacts == m.artifacts
  {
    hide ViewAt, ValidTransactionState, JournalOf, NoArtifactsBelow, KeptBackups;
  }

  lemma UntouchedIsCareful(m: Machine, w: Machine)
    requires w.live == m.live && w.artifacts == m.artifacts
    ensures Careful(m, w)
  {
  }

  lemma MoveIsCareful(m: Machine, index: nat, move: Move)
    requires Ledger(m) && Enabled(m, MoveFile(index, move))
    ensures Careful(m, Step(m, MoveFile(index, move)))
  {
    hide Ledger, RecordsPart;
    JournalIsSeparated(m);
    assert Entries(m)[index].quarantinePath != Entries(m)[index].tombstonePath;
    if move.DropTombstone? || move.DropQuarantine? {
      DropIsCareful(m, index, move);
    } else {
      CarryIsCareful(m, index, move);
    }
  }

  lemma JournalIsSeparated(m: Machine)
    requires Ledger(m)
    ensures Separated(Entries(m))
    ensures forall i :: 0 <= i < |Entries(m)| ==> ValidHashes(Entries(m)[i])
  {
    hide ValidTransactionState, RecordsPart, ArtifactsOk, JournalOf;
  }

  lemma DropIsCareful(m: Machine, index: nat, move: Move)
    requires Enabled(m, MoveFile(index, move)) && (move.DropTombstone? || move.DropQuarantine?)
    requires Entries(m)[index].quarantinePath != Entries(m)[index].tombstonePath
    ensures Careful(m, Step(m, MoveFile(index, move)))
  {
    var e := Entries(m)[index];
    var a := if move.DropTombstone? then e.tombstonePath else e.quarantinePath;
    DropDoes(m, index, move);
    assert JournaledAt(e, a, m.artifacts[a]);
    assert Expendable(m, a);
    hide *;
    DroppedIsCareful(m, Step(m, MoveFile(index, move)), a);
  }

  lemma DropDoes(m: Machine, index: nat, move: Move)
    requires Enabled(m, MoveFile(index, move)) && (move.DropTombstone? || move.DropQuarantine?)
    requires Entries(m)[index].quarantinePath != Entries(m)[index].tombstonePath
    ensures var e, w := Entries(m)[index], Step(m, MoveFile(index, move));
      var a := if move.DropTombstone? then e.tombstonePath else e.quarantinePath;
      && a in m.artifacts && e in Entries(m) && JournaledAt(e, a, m.artifacts[a])
      && a !in w.artifacts
      && (forall p :: Get(w.live, p) == Get(m.live, p))
      && (forall b :: b != a ==> Get(w.artifacts, b) == Get(m.artifacts, b))
  {
    hide ModeOf;
  }

  lemma DroppedIsCareful(m: Machine, w: Machine, a: string)
    requires a in m.artifacts && a !in w.artifacts && Expendable(m, a)
    requires forall p :: Get(w.live, p) == Get(m.live, p)
    requires forall b :: b != a ==> Get(w.artifacts, b) == Get(m.artifacts, b)
    ensures Careful(m, w)
  {
    hide Expendable, MovedToArtifact, MovedToLive;
  }

  lemma CarryIsCareful(m: Machine, index: nat, move: Move)
    requires Enabled(m, MoveFile(index, move)) && !move.DropTombstone? && !move.DropQuarantine?
    requires Entries(m)[index].quarantinePath != Entries(m)[index].tombstonePath
    ensures Careful(m, Step(m, MoveFile(index, move)))
  {
    var e := Entries(m)[index];
    var w := Step(m, MoveFile(index, move));
    hide Expendable, ModeOf;
    if move.Tombstone? {
      assert w.artifacts[e.tombstonePath] == m.live[e.relativePath];
    }
    if move.Quarantine? {
      assert w.artifacts[e.quarantinePath] == m.live[e.relativePath];
    }
    if move.Restore? {
      assert w.live[e.relativePath] == m.artifacts[e.quarantinePath];
    }
  }

  lemma TearIsCareful(m: Machine, index: nat)
    requires Ledger(m) && Enabled(m, TearFile(index))
    ensures Careful(m, Step(m, TearFile(index)))
  {
    JournalIsSeparated(m);
    CopyIsCareful(m, index);
  }

  lemma CopyIsCareful(m: Machine, index: nat)
    requires Separated(Entries(m)) && Enabled(m, TearFile(index)) && ValidHashes(Entries(m)[index])
    ensures Careful(m, Step(m, TearFile(index)))
  {
    assert Entries(m)[index].quarantinePath != Entries(m)[index].tombstonePath;
    var e, w := Entries(m)[index], Step(m, TearFile(index));
    assert w.live == m.live[e.relativePath := e.original.content];
    assert w.artifacts == m.artifacts[e.quarantinePath := e.original.content];
    hide Enabled, Step, Entries, ViewAt, ModeOf, Separated;
    CopyKeeps(m, w, e);
  }

  lemma CopyKeeps(m: Machine, w: Machine, e: JournalEntry)
    requires e.original.ShaOf?
    requires w.live == m.live[e.relativePath := e.original.content]
    requires w.artifacts == m.artifacts[e.quarantinePath := e.original.content]
    requires e.relativePath in m.live ==> m.live[e.relativePath] == e.original.content
    requires e.quarantinePath in m.artifacts ==> m.artifacts[e.quarantinePath] == e.original.content
    ensures Careful(m, w)
  {
    hide Expendable, MovedToLive, MovedToArtifact;
  }

  lemma RemovalKeepsArtifact(m: Machine, id: string, i: nat)
    requires ValidTransactionState(m.state) && i < |Entries(m)| && IsName(id) && m.state.candidate.value.id != id
    ensures var e, w := Entries(m)[i], WithoutGeneration(m, id);
      && Get(w.artifacts, e.quarantinePath) == Get(m.artifacts, e.quarantinePath)
      && Get(w.artifacts, e.tombstonePath) == Get(m.artifacts, e.tombstonePath)
  {
    hide ValidTransactionState, IsName, GenerationPrefix, WithoutGeneration;
    RemovalKeepsViews(m, id, i);
  }

  lemma CandidateOfJournal(m: Machine)
    requires JournalPart(m)
    ensures ArtifactsOk(m) && ValidTransactionState(m.state) && (m.state.transaction.Some? ==> m.state.candidate.Some?)
  {
    hide ArtifactsOk, ConfigTombstoneFree, JournalOk;
  }

  /** Cleanup and Discard remove no artifact but the configuration originals that recoveries kept. */
  lemma RemovalIsCareful(m: Machine, id: string)
    requires Ledger(m) && UnreferencedGeneration(m, id)
    ensures Careful(m, WithoutGeneration(m, id))
  {
    hide RecordsPart, ValidTransactionState, JournalOk, IsName, GenerationPrefix, JournalPart;
    CandidateOfJournal(m);
    var w := WithoutGeneration(m, id);
    forall a | a in m.artifacts
      ensures a in w.artifacts || Expendable(m, a)
    {
      if IsArtifactOf(Entries(m), a) {
        var i :| 0 <= i < |Entries(m)| && (a == Entries(m)[i].quarantinePath || a == Entries(m)[i].tombstonePath);
        hide WithoutGeneration;
        RemovalKeepsArtifact(m, id, i);
        assert Get(w.artifacts, a) == Get(m.artifacts, a);
      }
    }
  }

  // ---- Whole runs ----

  predicate Present(m: Machine, content: string) {
    || (exists p :: p in m.live && m.live[p] == content)
    || (exists a :: a in m.artifacts && m.artifacts[a] == content)
  }

  /** The bytes are those of some entry of the journal in force, or of a kept configuration original. */
  predicate Journaled(m: Machine, content: string) {
    || (exists i :: 0 <= i < |Entries(m)| &&
          (Entries(m)[i].original == ShaOf(content) || Entries(m)[i].tombstone == ShaOf(content)))
    || (exists a :: a in m.backups && m.backups[a] == content)
  }

  ghost predicate NeverJournaled(m: Machine, run: seq<Event>, content: string)
    decreases |run|
  {
    !Journaled(m, content) && (run == [] || NeverJournaled(Step(m, run[0]), run[1..], content))
  }

  lemma CarefulKeeps(m: Machine, w: Machine, content: string)
    requires Careful(m, w) && Present(m, content) && !Journaled(m, content)
    ensures Present(w, content)
  {
    if p :| p in m.live && m.live[p] == content {
      if Get(w.live, p) == Some(content) {
        assert w.live[p] == content;
      }
    } else {
      var a :| a in m.artifacts && m.artifacts[a] == content;
      if Get(w.artifacts, a) == Some(content) {
        assert w.artifacts[a] == content;
      }
    }
  }

  /**
   * Outside edits are never lost. Take any state reached with outside writers at work, and any
   * further steps of the controller: bytes that no journal names are still on disk afterwards.
   */
  lemma {:induction false} OutsideEditsNeverLost(m: Machine, run: seq<Event>, content: string)
    requires Ledger(m) && Legal(m, run) && Present(m, content)
    requires forall i :: 0 <= i < |run| ==> !IsOutside(run[i])
    requires NeverJournaled(m, run, content)
    ensures Present(Exec(m, run), content)
    decreases |run|
  {
    if run != [] {
      assert !IsOutside(run[0]);
      StepKeepsLedger(m, run[0]);
      StepIsCareful(m, run[0]);
      CarefulKeeps(m, Step(m, run[0]), content);
      hide Ledger, Enabled, Step, Present, Careful, Journaled, IsOutside;
      assert forall i :: 0 <= i < |run[1..]| ==> run[1..][i] == run[i + 1];
      OutsideEditsNeverLost(Step(m, run[0]), run[1..], content);
    }
  }
}
