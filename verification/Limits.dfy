/**
 * Where the protocol depends on how its operations are called: what the code itself does not
 * check, with the exact condition under which each promise holds.
 */
module Limits {
  import opened Prelude
  import opened Packages
  import opened Records
  import opened EntryRecovery
  import opened Machine
  import opened Invariant
  import opened Ledgers
  import opened Preservation
  import opened Stores
  import opened Promotions
  import opened Applies
  import opened CalmDisks

  // ---- Applying a generation that a record already names ----

  /** The previous and the failed generation are neither the active one nor the candidate. */
  predicate Apart(record: Option<GenerationRecord>, s: State) {
    record.Some? && record.value.id != "" ==>
      && (s.active.Some? ==> record.value.id != s.active.value.id)
      && (s.candidate.Some? ==> record.value.id != s.candidate.value.id)
  }

  /**
   * reconcilePromotion gets past its cleanup list exactly when neither Previous nor Failed names
   * the active generation or the candidate. Apply does not check that the staged identifier is
   * new; if it always is, this holds in every reachable state.
   */
  lemma CleanupPassesExactly(s: State)
    requires s.candidate.Some?
    ensures (forall id :: id in CleanupGenerationIDs(s.previous, s.failed) ==> !IsReferenced(SwitchedState(s), id))
      <==> Apart(s.previous, s) && Apart(s.failed, s)
  {
    var ids := CleanupGenerationIDs(s.previous, s.failed);
    CleanupNames(s.previous, s.failed);
    hide CleanupGenerationIDs;
    if Apart(s.previous, s) && Apart(s.failed, s) {
      forall id | id in ids
        ensures !IsReferenced(SwitchedState(s), id)
      {
      }
    } else if !Apart(s.previous, s) {
      assert s.previous.value.id in ids && IsReferenced(SwitchedState(s), s.previous.value.id);
    } else {
      assert s.failed.value.id in ids && IsReferenced(SwitchedState(s), s.failed.value.id);
    }
  }

  lemma CleanupNames(previous: Option<GenerationRecord>, failed: Option<GenerationRecord>)
    ensures forall id :: id in CleanupGenerationIDs(previous, failed) <==>
      id != "" && ((previous.Some? && id == previous.value.id) || (failed.Some? && id == failed.value.id))
  {
  }

  /**
   * The active generation applied once more and rolled back: Failed names it, and the next
   * promotion cannot be cleaned up.
   */
  lemma ReappliedActiveBlocksCleanup(s: State)
    requires s.active == Some(GenerationRecord("a", NoDigest, ActiveStatus))
    requires s.failed == Some(GenerationRecord("a", NoDigest, FailedStatus))
    requires s.candidate == Some(GenerationRecord("b", NoDigest, CandidateStatus)) && s.previous.None?
    ensures CleanupGenerationIDs(s.previous, s.failed) == ["a"] && IsReferenced(SwitchedState(s), "a")
  {
    var none: seq<string> := [];
    assert |s.failed.value.id| == 1 && CleanupGenerationIDs(s.previous, s.failed) == none + ["a"];
  }

  /** In every state of every run, the cleanup passes. */
  lemma CleanupPasses(m: Machine)
    requires RecordsPart(m) && m.state.candidate.Some?
    ensures forall id :: id in CleanupGenerationIDs(m.state.previous, m.state.failed) ==>
      !IsReferenced(SwitchedState(m.state), id)
  {
    CleanupPassesExactly(m.state);
    hide GenerationsOk, CleanupOk, LockOk, ProcOk, CleanupGenerationIDs, SwitchedState;
  }

  // ---- Promoting after a rollback that failed half-way ----

  /**
   * An interrupted rollback leaves every durable fact CommitPromotion checks: it looks at the phase
   * and at artifacts, not at live files. Only the process that applied the candidate may promote it.
   */
  lemma InterruptedRollbackStillPromotable(world: World, m: Machine, index: nat, move: Move, staged: StagedGeneration)
    requires Inv(world, m) && ModeOf(m).RecoverMode? && Promotable(m, staged)
    requires Enabled(m, MoveFile(index, move)) && Undisturbed(m, MoveFile(index, move))
    ensures Promotable(Step(m, MoveFile(index, move)), staged)
  {
    hide Inv, Enabled, Undisturbed, ArtifactsMatch, StagedMatches, Step;
    var w := Step(m, MoveFile(index, move));
    StepPreserves(world, m, MoveFile(index, move));
    CalmIsRecoverable(world, w);
    FilesOnlyIs(m, MoveFile(index, move));
  }

  /** The live files are those of the candidate, as far as the journal goes. */
  predicate CandidateIsLive(m: Machine) {
    m.state.transaction.Some? ==>
      forall i :: 0 <= i < |m.state.transaction.value.entries| ==>
        var e := m.state.transaction.value.entries[i]; Get(m.live, e.relativePath) == Bytes(e.installed)
  }

  /**
   * With all files rolled back and only the last save missing, promotion would still be accepted,
   * and would install the candidate exactly if the candidate changed nothing.
   */
  lemma RolledBackIsPromotable(world: World, m: Machine, staged: StagedGeneration)
    requires Inv(world, m) && ModeOf(m).RecoverMode? && m.state.transaction.value.phase.AppliedPhase?
    requires StagedMatches(m.generations, staged)
    requires m.state.candidate.Some? && m.state.candidate.value.id == staged.record.id
    requires m.state.candidate.value.lockDigest == staged.record.lockDigest
    requires forall i :: 0 <= i < |m.state.transaction.value.entries| ==>
      ViewAt(m, m.state.transaction.value.entries[i]) == Original(m.state.transaction.value.entries[i])
    ensures Promotable(m, staged)
    ensures CandidateIsLive(m) <==>
      forall i :: 0 <= i < |m.state.transaction.value.entries| ==>
        Bytes(m.state.transaction.value.entries[i].original) == Bytes(m.state.transaction.value.entries[i].installed)
  {
    hide Inv, ArtifactsMatch, StagedMatches;
    CalmIsRecoverable(world, m);
    forall i | 0 <= i < |m.state.transaction.value.entries|
      ensures Get(m.live, m.state.transaction.value.entries[i].relativePath) ==
        Bytes(m.state.transaction.value.entries[i].original)
    {
      assert ViewAt(m, m.state.transaction.value.entries[i]).live ==
        Bytes(m.state.transaction.value.entries[i].original);
    }
  }

  // ---- A configuration backup that an earlier rollback kept ----

  /**
   * A rollback that finds the configuration rewritten keeps the original in quarantine. Applying
   * the same generation again journals the same place; an Apply stopped before it touched the
   * configuration is then recoverable exactly when the kept backup is the new original.
   */
  lemma KeptBackupDecides(e: JournalEntry, backup: string)
    requires ValidHashes(e)
    ensures ConfigRecoverable(e, View(Bytes(e.original), Some(backup), None)) <==>
      e.existed && e.original == ShaOf(backup)
    ensures NextConfigMove(e, View(Bytes(e.original), Some(backup), None)).Refuse? <==>
      !(e.existed && e.original == ShaOf(backup))
  {
    ConfigRefusesExactly(e, View(Bytes(e.original), Some(backup), None));
  }

  // ---- Moves torn by a loss of power ----

  /** The new name of a moved file is durable and the old one not yet gone. */
  function Torn(v: View, move: Move): View
    requires move.Quarantine? || move.Restore? || move.Tombstone?
  {
    match move
    case Quarantine => View(v.live, v.live, v.tombstone)
    case Restore => View(v.quarantine, v.quarantine, v.tombstone)
    case Tombstone => View(v.live, v.quarantine, v.live)
  }

  /**
   * Recovery accepts a torn move exactly if it moved an original with no tombstone about. It
   * refuses a torn move of the installed file, and a restore torn between its two moves, although
   * the original is safe under both names then.
   */
  lemma TornMoveDecides(e: JournalEntry, v: View, move: Move)
    requires ValidHashes(e) && (move.Quarantine? || move.Restore? || move.Tombstone?)
    requires (move.Quarantine? && e.existed && v == Original(e)) || NextMove(e, v) == Do(move)
    ensures Recoverable(e, Torn(v, move)) <==> !move.Tombstone? && v.tombstone.None?
    ensures NextMove(e, Torn(v, move)).Refuse? <==> move.Tombstone? || v.tombstone.Some?
  {
    RefusesExactly(e, Torn(v, move));
  }

  /** A torn restore of the configuration is always accepted: it has no tombstone. */
  lemma TornConfigAccepted(e: JournalEntry, v: View)
    requires ValidHashes(e) && v.tombstone.None? && NextConfigMove(e, v) == Do(Restore)
    ensures ConfigRecoverable(e, Torn(v, Restore))
  {
  }

  // ---- An outside edit under a transaction ----

  /**
   * An Apply that an outside edit of a managed file made fail leaves the edit live and only
   * originals in quarantine. Recovery then accepts the file exactly if the edit is the original,
   * or what was to be installed once Apply had dealt with the original.
   */
  lemma EditedEntryDecides(m: Machine, index: nat, edit: string)
    requires NothingForeign(m) && index < |Entries(m)| && ValidHashes(Entries(m)[index])
    requires Get(m.live, Entries(m)[index].relativePath) == Some(edit)
    ensures var e := Entries(m)[index];
      NextMove(e, ViewAt(m, e)).Refuse? <==>
        && e.original != ShaOf(edit)
        && (e.installed != ShaOf(edit) || (e.existed && e.quarantinePath !in m.artifacts))
  {
    var e := Entries(m)[index];
    assert OriginalOnly(m, e);
    RefusesExactly(e, ViewAt(m, e));
  }

  /** So it refuses a file that was to be replaced and that an operator had replaced before. */
  lemma EditBlocksRecovery() returns (e: JournalEntry, v: View)
    ensures ValidHashes(e) && e.existed && v.live == Some("operator edit before install")
    ensures v.quarantine.None? && v.tombstone.None? && NextMove(e, v) == Refuse
  {
    e := JournalEntry("winhttp.dll", "q", "t", true, ShaOf("old"), ShaOf("new"), ShaOf("new"));
    v := View(Some("operator edit before install"), None, None);
  }

  // ---- Discarding an identifier of several path components ----

  /** Removing the tree at `id` removes something of generation `g`. */
  predicate Reaches(id: string, g: string) {
    g == id || g + "/" <= id
  }

  ghost predicate ReachesReferenced(s: State, id: string) {
    exists g :: IsReferenced(s, g) && Reaches(id, g)
  }

  predicate NamesOnly(s: State) {
    forall record :: record in [s.active, s.previous, s.candidate, s.failed] && record.Some? ==> IsName(record.value.id)
  }

  /** A name is reached from an identifier exactly if it is its first component. */
  lemma ReachedIsFirst(id: string, g: string)
    requires IsName(g)
    ensures Reaches(id, g) <==> Split(id, '/')[0] == g
  {
    NameHasNoSlash(g);
    JoinSplit(id, '/');
    var parts := Split(id, '/');
    if |parts| > 1 {
      assert id == (parts[0] + ['/']) + Join(parts[1..], '/');
    } else {
      assert id == parts[0];
    }
    if g == id {
      SplitSingle(g, '/');
    } else if g + "/" <= id {
      assert id == (g + ['/']) + id[|g| + 1..];
      hide Split, Join;
      SplitPart(g, id[|g| + 1..], '/');
    }
  }

  /**
   * Discard compares whole identifiers. That is enough for identifiers of one component; of the
   * others it lets exactly those reach a referenced generation whose first component is one.
   */
  lemma DiscardReaches(s: State, id: string)
    requires NamesOnly(s)
    ensures ReachesReferenced(s, id) <==> IsReferenced(s, Split(id, '/')[0])
    ensures |Split(id, '/')| == 1 ==> (ReachesReferenced(s, id) <==> IsReferenced(s, id))
    ensures |Split(id, '/')| > 1 ==> !IsReferenced(s, id)
  {
    hide Reaches, IsName, Split;
    forall g | IsReferenced(s, g)
      ensures IsName(g) && (Reaches(id, g) <==> Split(id, '/')[0] == g)
    {
      ReferencedIsName(s, g);
      ReachedIsFirst(id, g);
    }
    var first := Split(id, '/')[0];
    if IsReferenced(s, first) {
      assert Reaches(id, first);
    }
    OneComponent(id);
  }

  lemma ReferencedIsName(s: State, g: string)
    requires NamesOnly(s) && IsReferenced(s, g)
    ensures IsName(g)
  {
    hide IsName;
    var records := [s.active, s.previous, s.candidate, s.failed];
    assert records[0] in records && records[1] in records && records[2] in records && records[3] in records;
  }

  lemma OneComponent(id: string)
    ensures |Split(id, '/')| == 1 ==> Split(id, '/')[0] == id
    ensures IsName(id) ==> |Split(id, '/')| == 1
  {
    JoinSplit(id, '/');
  }
}
