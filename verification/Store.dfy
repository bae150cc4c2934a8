/** Store: recovery of an interrupted transaction, and removal of a committed one's artifacts. */
module Stores {
  import opened Prelude
  import opened Records
  import opened Journal
  import opened EntryRecovery
  import opened Machine
  import opened Invariant
  import opened Disks

  /** Only the places of entry `e` changed, and what the world may change. */
  ghost predicate OnlyEntry(before: Machine, after: Machine, e: JournalEntry, quiet: bool) {
    && after == before.(live := after.live, artifacts := after.artifacts, proc := after.proc)
    && (before.proc.Recovering? ==> after.proc.Recovering?)
    && (forall a :: a != e.quarantinePath && a != e.tombstonePath ==>
         Get(after.artifacts, a) == Get(before.artifacts, a))
    && (quiet ==>
          && (forall p :: p != e.relativePath && p != CONFIG_PATH ==> Get(after.live, p) == Get(before.live, p))
          && (e.relativePath != CONFIG_PATH ==> (CONFIG_PATH in before.live <==> CONFIG_PATH in after.live)))
  }

  lemma OnlyEntryTransitive(a: Machine, b: Machine, c: Machine, e: JournalEntry, q: bool, r: bool)
    requires OnlyEntry(a, b, e, q) && OnlyEntry(b, c, e, r)
    ensures OnlyEntry(a, c, e, q && r)
  {
  }

  lemma EndedOnlyEntry(before: Machine, index: nat, move: Move, after: Machine, quiet: bool)
    requires index < |Entries(before)| && Ended(before, MoveFile(index, move), after, quiet)
    ensures OnlyEntry(before, after, Entries(before)[index], quiet)
  {
    var e := Entries(before)[index];
    var moved, torn := Step(before, MoveFile(index, move)), Step(before, TearFile(index));
    ViewOnlyEntry(before, e, After(e, ViewAt(before, e), move), before.proc);
    ViewOnlyEntry(before, e, View(Bytes(e.original), Bytes(e.original), ViewAt(before, e).tombstone), Recovering);
    hide OnlyEntry, ViewAt, After, Drifted;
    if Drifted(before, after, quiet) {
      DriftOnlyEntry(before, after, e, quiet);
    } else if Drifted(moved, after, quiet) {
      DriftOnlyEntry(moved, after, e, quiet);
      OnlyEntryTransitive(before, moved, after, e, true, quiet);
    } else {
      DriftOnlyEntry(torn, after, e, quiet);
      OnlyEntryTransitive(before, torn, after, e, true, quiet);
    }
  }

  lemma ViewOnlyEntry(m: Machine, e: JournalEntry, v: View, proc: Proc)
    requires proc == m.proc || proc.Recovering?
    ensures OnlyEntry(m, WithView(m, e, v).(proc := proc), e, true)
  {
  }

  lemma DriftOnlyEntry(before: Machine, after: Machine, e: JournalEntry, quiet: bool)
    requires Drifted(before, after, quiet)
    ensures OnlyEntry(before, after, e, quiet)
  {
    DriftKeepsLive(before, after, quiet);
  }

  /** Quiet drift leaves every live path but the configuration alone. */
  lemma DriftKeepsLive(before: Machine, after: Machine, quiet: bool)
    requires Drifted(before, after, quiet)
    ensures quiet ==> forall p :: p != CONFIG_PATH ==> Get(after.live, p) == Get(before.live, p)
  {
    if quiet {
      forall p | p != CONFIG_PATH
        ensures Get(after.live, p) == Get(before.live, p)
      {
        assert Get(after.live - {CONFIG_PATH}, p) == Get(before.live - {CONFIG_PATH}, p);
      }
    }
  }

  // ---- One managed entry ----

  /** The disk is recovering, and `e` is the managed entry at `index`. */
  ghost predicate AtEntry(m: Machine, index: nat, e: JournalEntry) {
    && ModeOf(m).RecoverMode?
    && index < |m.state.transaction.value.entries| && Entries(m)[index] == e
  }

  lemma LedgerEntry(d: Disk, index: nat, e: JournalEntry)
    requires d.Valid() && AtEntry(d.M(), index, e)
    ensures ValidHashes(e) && e.relativePath != CONFIG_PATH && e.quarantinePath != e.tombstonePath
  {
    SoundNow(d.world, d.outside, d.states, d.log, d.M());
    hide ValidTransactionState, RecordsPart, ArtifactsOk, Inv, Grounded;
    var m := d.M();
    assert m.state.transaction.value.entries[index] == e;
  }

  lemma StillAtEntry(before: Machine, after: Machine, index: nat, e: JournalEntry, quiet: bool)
    requires AtEntry(before, index, e) && OnlyEntry(before, after, e, quiet)
    ensures AtEntry(after, index, e)
  {
  }

  /** Permission for the next operation, from what was inspected. */
  lemma EntryPermitted(m: Machine, index: nat, e: JournalEntry, move: Move)
    requires AtEntry(m, index, e) && ValidHashes(e)
    requires !move.Quarantine? && !move.Install?
    requires var v := ViewAt(m, e);
      match move
      case Restore => e.existed && v.live.None? && Holds(v.quarantine, e.original)
      case Tombstone => e.installed.ShaOf? && v.live.Some? && v.tombstone.None? && v.quarantine == Bytes(e.original)
      case DropTombstone => v.quarantine.None? && Holds(v.tombstone, e.tombstone)
      case DropQuarantine => v.tombstone.None? && e.existed && Holds(v.quarantine, e.original)
    ensures Enabled(m, MoveFile(index, move))
    ensures NextMove(e, ViewAt(m, e)) == Do(move) ==> Undisturbed(m, MoveFile(index, move))
  {
    hide ViewAt, NextMove;
  }

  /** What an attempt on one entry, seen in view `v`, leaves. */
  ghost predicate Attempted(ok: bool, e: JournalEntry, v: View, after: Machine, quiet: bool, faultless: bool) {
    && (ok ==> e.quarantinePath !in after.artifacts && e.tombstonePath !in after.artifacts)
    && (quiet && ok ==> ViewAt(after, e) == Original(e))
    && (quiet && faultless ==> (ok <==> Recoverable(e, v)))
    && (quiet && faultless && !ok ==> ViewAt(after, e) == v)
  }

  /** What was inspected still holds: of artifacts always, of the live path while no one else writes. */
  ghost predicate Seen(m: Machine, e: JournalEntry, v: View, quiet: bool) {
    && Get(m.artifacts, e.quarantinePath) == v.quarantine && Get(m.artifacts, e.tombstonePath) == v.tombstone
    && (quiet ==> Get(m.live, e.relativePath) == v.live)
  }

  lemma SeenAfterDrift(before: Machine, after: Machine, e: JournalEntry, v: View, q: bool, quiet: bool)
    requires Seen(before, e, v, q) && Drifted(before, after, quiet) && e.relativePath != CONFIG_PATH
    ensures Seen(after, e, v, q && quiet)
  {
    DriftKeepsLive(before, after, quiet);
  }

  lemma SeenAfterStep(m: Machine, index: nat, e: JournalEntry, move: Move, v: View, q: bool, after: Machine,
                      quiet: bool)
    requires index < |Entries(m)| && Entries(m)[index] == e && Seen(m, e, v, q)
    requires e.relativePath != CONFIG_PATH && e.quarantinePath != e.tombstonePath
    requires !(move.Tombstone? || move.Quarantine?) || q
    requires Drifted(Step(m, MoveFile(index, move)), after, quiet)
    ensures Seen(after, e, After(e, v, move), q && quiet)
  {
    DriftKeepsLive(Step(m, MoveFile(index, move)), after, quiet);
  }

  /** An unlink of one of the entry's artifacts, as the last operation of an attempt. */
  method RemoveLast(d: Disk, e: JournalEntry, ghost index: nat, tombstone: bool, ghost v: View, ghost quiet: bool)
      returns (ok: bool)
    requires d.Valid() && AtEntry(d.M(), index, e) && Seen(d.M(), e, v, quiet) && (!d.outside ==> quiet)
    requires if tombstone then v.quarantine.None? && Holds(v.tombstone, e.tombstone)
             else v.tombstone.None? && e.existed && Holds(v.quarantine, e.original)
    requires NextMove(e, v) == Do(if tombstone then DropTombstone else DropQuarantine) || d.outside
    modifies d
    ensures d.Valid() && d.faults <= old(d.faults) && d.edits <= old(d.edits)
    ensures OnlyEntry(old(d.M()), d.M(), e, d.edits == old(d.edits))
    ensures ok ==> Seen(d.M(), e, View(v.live, None, None), quiet && d.edits == old(d.edits))
    ensures !ok ==> d.faults < old(d.faults)
  {
    hide Grounded, Enabled, Undisturbed, NextMove;
    LedgerEntry(d, index, e);
    ghost var m := d.M();
    ghost var move := if tombstone then DropTombstone else DropQuarantine;
    EntryPermittedSeen(m, index, e, v, quiet, move);
    var expected := if tombstone then e.tombstone.content else e.original.content;
    ok := d.RemoveArtifact(e, index, tombstone, expected);
    EndedOnlyEntry(m, index, move, d.M(), d.edits == old(d.edits));
    if ok {
      SeenAfterStep(m, index, e, move, v, quiet, d.M(), d.edits == old(d.edits));
    }
    hide Step, Drifted, OnlyEntry;
  }

  /** Permission from what was seen. */
  lemma EntryPermittedSeen(m: Machine, index: nat, e: JournalEntry, v: View, quiet: bool, move: Move)
    requires AtEntry(m, index, e) && ValidHashes(e) && Seen(m, e, v, quiet)
    requires move.DropTombstone? || move.DropQuarantine?
    requires match move
      case DropTombstone => v.quarantine.None? && Holds(v.tombstone, e.tombstone)
      case _ => v.tombstone.None? && e.existed && Holds(v.quarantine, e.original)
    ensures Enabled(m, MoveFile(index, move))
    ensures quiet && NextMove(e, v) == Do(move) ==> Undisturbed(m, MoveFile(index, move))
  {
    EntryPermitted(m, index, e, move);
    hide Enabled, Undisturbed, NextMove;
    assert quiet ==> ViewAt(m, e) == v;
  }

  lemma EntombedArtifacts(m: Machine, index: nat, e: JournalEntry, after: Machine, quiet: bool)
    requires index < |Entries(m)| && Entries(m)[index] == e && e.quarantinePath != e.tombstonePath
    requires e.relativePath in m.live && Drifted(Step(m, MoveFile(index, Tombstone)), after, quiet)
    ensures Get(after.artifacts, e.quarantinePath) == Get(m.artifacts, e.quarantinePath)
    ensures e.tombstonePath in after.artifacts
  {
  }

  /** The live file is moved to the tombstone. */
  method Entomb(d: Disk, e: JournalEntry, ghost index: nat, ghost v: View, ghost quiet: bool) returns (ok: bool)
    requires d.Valid() && AtEntry(d.M(), index, e) && Seen(d.M(), e, v, quiet) && (!d.outside ==> quiet)
    requires e.installed.ShaOf? && v.live.Some? && v.tombstone.None? && v.quarantine == Bytes(e.original)
    requires NextMove(e, v) == Do(Tombstone)
    modifies d
    ensures d.Valid() && d.faults <= old(d.faults) && d.edits <= old(d.edits)
    ensures OnlyEntry(old(d.M()), d.M(), e, d.edits == old(d.edits))
    ensures ok ==> Get(d.artifacts, e.quarantinePath) == v.quarantine && e.tombstonePath in d.artifacts
    ensures ok && quiet ==> Seen(d.M(), e, View(None, v.quarantine, v.live), d.edits == old(d.edits))
    ensures !ok && quiet ==> d.faults < old(d.faults)
  {
    hide Grounded, Enabled, Undisturbed, NextMove;
    LedgerEntry(d, index, e);
    ghost var m := d.M();
    if e.relativePath in d.live {
      EntryPermitted(m, index, e, Tombstone);
      assert quiet ==> ViewAt(m, e) == v;
    }
    ok := d.MoveAside(e, index, true);
    EndedOnlyEntry(m, index, Tombstone, d.M(), d.edits == old(d.edits));
    if ok {
      EntombedArtifacts(m, index, e, d.M(), d.edits == old(d.edits));
      if quiet {
        SeenAfterStep(m, index, e, Tombstone, v, quiet, d.M(), d.edits == old(d.edits));
      }
    }
    hide OnlyEntry, Step, Drifted, AtEntry;
  }

  /** The quarantined original is moved back to its live path. */
  method PutBack(d: Disk, e: JournalEntry, ghost index: nat, ghost v: View, ghost quiet: bool) returns (ok: bool)
    requires d.Valid() && AtEntry(d.M(), index, e) && Seen(d.M(), e, v, quiet) && (!d.outside ==> quiet)
    requires e.existed && v.live.None? && Holds(v.quarantine, e.original)
    requires NextMove(e, v) == Do(Restore) || d.outside
    modifies d
    ensures d.Valid() && d.faults <= old(d.faults) && d.edits <= old(d.edits)
    ensures OnlyEntry(old(d.M()), d.M(), e, d.edits == old(d.edits))
    ensures ok ==> Seen(d.M(), e, View(v.quarantine, None, v.tombstone), quiet && d.edits == old(d.edits))
    ensures !ok && quiet ==> d.faults < old(d.faults)
  {
    hide Grounded, Enabled, Undisturbed, NextMove;
    LedgerEntry(d, index, e);
    ghost var m := d.M();
    if e.relativePath !in d.live {
      EntryPermitted(m, index, e, Restore);
      assert quiet ==> ViewAt(m, e) == v;
    }
    ok := d.MoveBack(e, index);
    EndedOnlyEntry(m, index, Restore, d.M(), d.edits == old(d.edits));
    if ok {
      SeenAfterStep(m, index, e, Restore, v, quiet, d.M(), d.edits == old(d.edits));
    }
    hide OnlyEntry;
  }

  /** What the three branches of an attempt start from: observed places that pass the first checks. */
  ghost predicate Ready(d: Disk, index: nat, e: JournalEntry, v: View, quiet: bool)
    reads d
  {
    && d.Valid() && AtEntry(d.M(), index, e) && Seen(d.M(), e, v, quiet) && (!d.outside ==> quiet)
    && (v.quarantine.Some? ==> e.existed && Holds(v.quarantine, e.original))
    && (v.tombstone.Some? ==> Holds(v.tombstone, e.tombstone))
  }

  /** Nothing was done, or nothing is left to do. */
  lemma StoppedAt(e: JournalEntry, v: View, m: Machine, quiet: bool, ok: bool)
    requires ValidHashes(e) && Seen(m, e, v, quiet)
    requires if ok then NextMove(e, v).Done? else NextMove(e, v).Refuse?
    ensures Attempted(ok, e, v, m, quiet, true) && OnlyEntry(m, m, e, true)
  {
    RefusesExactly(e, v);
    hide NextMove, Recoverable;
  }

  /** All operations were done, or one of them failed. */
  lemma Finished(e: JournalEntry, v: View, m: Machine, quiet: bool, ok: bool, faultless: bool)
    requires ValidHashes(e) && Recoverable(e, v)
    requires ok ==> Seen(m, e, Original(e), quiet)
    requires !ok && quiet ==> !faultless
    ensures Attempted(ok, e, v, m, quiet, faultless)
  {
    hide Recoverable;
  }

  /** The branch for a file that did not exist before. */
  method RecoverNew(d: Disk, e: JournalEntry, ghost index: nat, live: Option<string>, tombstone: Option<string>,
                    ghost quiet: bool)
      returns (ok: bool)
    requires Ready(d, index, e, View(live, None, tombstone), quiet) && !e.existed
    modifies d
    ensures d.Valid() && d.faults <= old(d.faults) && d.edits <= old(d.edits)
    ensures OnlyEntry(old(d.M()), d.M(), e, d.edits == old(d.edits))
    ensures Attempted(ok, e, View(live, None, tombstone), d.M(), quiet && d.edits == old(d.edits),
      d.faults == old(d.faults))
  {
    hide Grounded, OnlyEntry, Recoverable, Attempted;
    LedgerEntry(d, index, e);
    ghost var v := View(live, None, tombstone);
    ghost var m := d.M();
    RefusesExactly(e, v);
    if tombstone.Some? {
      if live.Some? {
        StoppedAt(e, v, d.M(), quiet, false);
        return false;
      }
      ok := RemoveLast(d, e, index, true, v, quiet);
      Finished(e, v, d.M(), quiet && d.edits == old(d.edits), ok, d.faults == old(d.faults));
      return ok;
    }
    if live.None? {
      StoppedAt(e, v, d.M(), quiet, true);
      return true;
    }
    if e.installed != ShaOf(live.value) {
      StoppedAt(e, v, d.M(), quiet, false);
      return false;
    }
    ok := Entomb(d, e, index, v, quiet);
    ghost var q := quiet && d.edits == old(d.edits);
    if !ok {
      Finished(e, v, d.M(), q, ok, d.faults == old(d.faults));
      return false;
    }
    ghost var w := d.M();
    StillAtEntry(m, w, index, e, d.edits == old(d.edits));
    var found;
    ok, found := d.InspectArtifact(e.tombstonePath);
    if !ok || found.None? || e.installed != ShaOf(found.value) {
      Finished(e, v, d.M(), q, false, d.faults == old(d.faults));
      return false;
    }
    ghost var edits := d.edits;
    ok := RemoveLast(d, e, index, true, View(None, None, found), q);
    OnlyEntryTransitive(m, w, d.M(), e, edits == old(d.edits), d.edits == edits);
    Finished(e, v, d.M(), quiet && d.edits == old(d.edits), ok, d.faults == old(d.faults));
  }

  /** The branch for an original that is already back, or was never displaced. */
  method RecoverRestored(d: Disk, e: JournalEntry, ghost index: nat, live: Option<string>, tombstone: Option<string>,
                         ghost quiet: bool)
      returns (ok: bool)
    requires Ready(d, index, e, View(live, None, tombstone), quiet) && e.existed
    modifies d
    ensures d.Valid() && d.faults <= old(d.faults) && d.edits <= old(d.edits)
    ensures OnlyEntry(old(d.M()), d.M(), e, d.edits == old(d.edits))
    ensures Attempted(ok, e, View(live, None, tombstone), d.M(), quiet && d.edits == old(d.edits),
      d.faults == old(d.faults))
  {
    hide Grounded, OnlyEntry, Recoverable, Attempted;
    LedgerEntry(d, index, e);
    ghost var v := View(live, None, tombstone);
    RefusesExactly(e, v);
    if live.None? || e.original != ShaOf(live.value) {
      StoppedAt(e, v, d.M(), quiet, false);
      return false;
    }
    if tombstone.None? {
      StoppedAt(e, v, d.M(), quiet, true);
      return true;
    }
    ok := RemoveLast(d, e, index, true, v, quiet);
    Finished(e, v, d.M(), quiet && d.edits == old(d.edits), ok, d.faults == old(d.faults));
  }

  /** Restoring the original where the live path is empty, then dropping the tombstone seen before. */
  method RestoreThenDrop(d: Disk, e: JournalEntry, ghost index: nat, ghost v: View, ghost quiet: bool)
      returns (ok: bool)
    requires Ready(d, index, e, v, quiet) && e.existed && v.live.None? && v.quarantine.Some? && v.tombstone.Some?
    requires e.installed.ShaOf?
    modifies d
    ensures d.Valid() && d.faults <= old(d.faults) && d.edits <= old(d.edits)
    ensures OnlyEntry(old(d.M()), d.M(), e, d.edits == old(d.edits))
    ensures ok ==> Seen(d.M(), e, Original(e), quiet && d.edits == old(d.edits))
    ensures !ok && quiet && d.edits == old(d.edits) ==> d.faults < old(d.faults)
  {
    hide Grounded, OnlyEntry;
    LedgerEntry(d, index, e);
    ghost var m := d.M();
    ok := PutBack(d, e, index, v, quiet);
    if !ok {
      return false;
    }
    ghost var w, edits := d.M(), d.edits;
    StillAtEntry(m, w, index, e, d.edits == old(d.edits));
    ok := RemoveLast(d, e, index, true, View(v.quarantine, None, v.tombstone), quiet && d.edits == old(d.edits));
    OnlyEntryTransitive(m, w, d.M(), e, edits == old(d.edits), d.edits == edits);
  }

  /** The same after tombstoning the replacement: the tombstone is verified before it is dropped. */
  method RestoreThenVerify(d: Disk, e: JournalEntry, ghost index: nat, ghost v: View, ghost quiet: bool)
      returns (ok: bool)
    requires d.Valid() && AtEntry(d.M(), index, e) && Seen(d.M(), e, v, quiet) && (!d.outside ==> quiet)
    requires e.existed && e.installed.ShaOf? && v.live.None? && Holds(v.quarantine, e.original)
    requires quiet ==> Holds(v.tombstone, e.tombstone)
    modifies d
    ensures d.Valid() && d.faults <= old(d.faults) && d.edits <= old(d.edits)
    ensures OnlyEntry(old(d.M()), d.M(), e, d.edits == old(d.edits))
    ensures ok ==> Seen(d.M(), e, Original(e), quiet && d.edits == old(d.edits))
    ensures !ok && quiet && d.edits == old(d.edits) ==> d.faults < old(d.faults)
  {
    hide Grounded, OnlyEntry;
    LedgerEntry(d, index, e);
    ghost var m := d.M();
    ok := PutBack(d, e, index, v, quiet);
    if !ok {
      return false;
    }
    ghost var w, edits := d.M(), d.edits;
    StillAtEntry(m, w, index, e, d.edits == old(d.edits));
    var found;
    ok, found := d.InspectArtifact(e.tombstonePath);
    if !ok || found.None? || e.installed != ShaOf(found.value) {
      return false;
    }
    ok := RemoveLast(d, e, index, true, View(v.quarantine, None, found), quiet && d.edits == old(d.edits));
    OnlyEntryTransitive(m, w, d.M(), e, edits == old(d.edits), d.edits == edits);
  }

  /** Tombstoning the installed replacement, restoring the original, dropping the tombstone. */
  method ReplaceBack(d: Disk, e: JournalEntry, ghost index: nat, ghost v: View, ghost quiet: bool) returns (ok: bool)
    requires Ready(d, index, e, v, quiet) && e.existed && v.quarantine.Some? && v.tombstone.None?
    requires Holds(v.live, e.installed) && e.installed != e.original
    modifies d
    ensures d.Valid() && d.faults <= old(d.faults) && d.edits <= old(d.edits)
    ensures OnlyEntry(old(d.M()), d.M(), e, d.edits == old(d.edits))
    ensures ok ==> Seen(d.M(), e, Original(e), quiet && d.edits == old(d.edits))
    ensures !ok && quiet && d.edits == old(d.edits) ==> d.faults < old(d.faults)
  {
    hide Grounded, OnlyEntry;
    LedgerEntry(d, index, e);
    ghost var m := d.M();
    ok := Entomb(d, e, index, v, quiet);
    if !ok {
      return false;
    }
    ghost var w, edits := d.M(), d.edits;
    StillAtEntry(m, w, index, e, d.edits == old(d.edits));
    ghost var displaced := Get(d.artifacts, e.tombstonePath);
    ghost var q := quiet && d.edits == old(d.edits);
    ok := RestoreThenVerify(d, e, index, View(None, v.quarantine, displaced), q);
    OnlyEntryTransitive(m, w, d.M(), e, edits == old(d.edits), d.edits == edits);
  }

  /** The branch for an original in quarantine. */
  method RecoverDisplaced(d: Disk, e: JournalEntry, ghost index: nat, live: Option<string>, original: string,
                          tombstone: Option<string>, ghost quiet: bool) returns (ok: bool)
    requires Ready(d, index, e, View(live, Some(original), tombstone), quiet) && e.existed
    modifies d
    ensures d.Valid() && d.faults <= old(d.faults) && d.edits <= old(d.edits)
    ensures OnlyEntry(old(d.M()), d.M(), e, d.edits == old(d.edits))
    ensures Attempted(ok, e, View(live, Some(original), tombstone), d.M(), quiet && d.edits == old(d.edits),
      d.faults == old(d.faults))
  {
    hide Grounded, OnlyEntry, Recoverable, Attempted;
    LedgerEntry(d, index, e);
    ghost var v := View(live, Some(original), tombstone);
    RefusesExactly(e, v);
    if live.Some? && e.original == ShaOf(live.value) && tombstone.None? {
      ok := d.Sync();
      if ok {
        ok := RemoveLast(d, e, index, false, v, quiet);
      } else {
        DriftOnlyEntry(d.M(), d.M(), e, true);
      }
    } else if e.installed.NoSha? {
      if tombstone.Some? || live.Some? {
        StoppedAt(e, v, d.M(), quiet, false);
        return false;
      }
      ok := PutBack(d, e, index, v, quiet);
    } else if tombstone.Some? {
      if live.Some? {
        StoppedAt(e, v, d.M(), quiet, false);
        return false;
      }
      ok := RestoreThenDrop(d, e, index, v, quiet);
    } else if live.None? {
      ok := PutBack(d, e, index, v, quiet);
    } else {
      if e.installed != ShaOf(live.value) {
        StoppedAt(e, v, d.M(), quiet, false);
        return false;
      }
      ok := ReplaceBack(d, e, index, v, quiet);
    }
    Finished(e, v, d.M(), quiet && d.edits == old(d.edits), ok, d.faults == old(d.faults));
  }

  /** The three snapshots an attempt starts with. */
  method InspectEntry(d: Disk, e: JournalEntry, ghost index: nat) returns (ok: bool, v: View)
    requires d.Valid() && AtEntry(d.M(), index, e)
    modifies d
    ensures d.Valid() && d.faults <= old(d.faults) && d.edits <= old(d.edits) && AtEntry(d.M(), index, e)
    ensures OnlyEntry(old(d.M()), d.M(), e, d.edits == old(d.edits))
    ensures ok ==> v == ViewAt(old(d.M()), e) && Seen(d.M(), e, v, d.edits == old(d.edits))
    ensures !ok ==> d.faults < old(d.faults)
  {
    hide Grounded;
    LedgerEntry(d, index, e);
    ghost var m := d.M();
    var live, quarantine, tombstone;
    ok, live := d.InspectLive(e.relativePath);
    v := View(live, None, None);
    DriftOnlyEntry(m, d.M(), e, d.edits == old(d.edits));
    StillAtEntry(m, d.M(), index, e, d.edits == old(d.edits));
    SeenAfterDrift(m, d.M(), e, ViewAt(m, e), true, d.edits == old(d.edits));
    hide OnlyEntry, Drifted, AtEntry;
    if ok {
      ok, quarantine := d.InspectArtifact(e.quarantinePath);
      if ok {
        ok, tombstone := d.InspectArtifact(e.tombstonePath);
        v := View(live, quarantine, tombstone);
      }
    }
  }

  /**
   * recoverQuarantinedJournalEntry. With no fault and no outside write it succeeds exactly on
   * the recoverable combinations and refuses the others without touching anything; a success
   * always leaves both artifact places empty.
   */
  method RecoverQuarantinedJournalEntry(d: Disk, e: JournalEntry, ghost index: nat) returns (ok: bool)
    requires d.Valid() && AtEntry(d.M(), index, e)
    modifies d
    ensures d.Valid() && d.faults <= old(d.faults) && d.edits <= old(d.edits)
    ensures OnlyEntry(old(d.M()), d.M(), e, d.edits == old(d.edits))
    ensures Attempted(ok, e, ViewAt(old(d.M()), e), d.M(), d.edits == old(d.edits), d.faults == old(d.faults))
  {
    LedgerEntry(d, index, e);
    ghost var m := d.M();
    var inspected, v := InspectEntry(d, e, index);
    hide Grounded, Recoverable, OnlyEntry;
    if !inspected {
      return false;
    }
    RefusesExactly(e, v);
    ghost var w, edits := d.M(), d.edits;
    if v.quarantine.Some? && (!e.existed || e.original != ShaOf(v.quarantine.value)) {
      StoppedAt(e, v, d.M(), edits == old(d.edits), false);
      return false;
    }
    if v.tombstone.Some? && (e.tombstone.NoSha? || e.tombstone != ShaOf(v.tombstone.value)) {
      StoppedAt(e, v, d.M(), edits == old(d.edits), false);
      return false;
    }
    hide Attempted, AtEntry, Seen;
    if !e.existed {
      ok := RecoverNew(d, e, index, v.live, v.tombstone, edits == old(d.edits));
    } else if v.quarantine.None? {
      ok := RecoverRestored(d, e, index, v.live, v.tombstone, edits == old(d.edits));
    } else {
      ok := RecoverDisplaced(d, e, index, v.live, v.quarantine.value, v.tombstone, edits == old(d.edits));
    }
    OnlyEntryTransitive(m, w, d.M(), e, edits == old(d.edits), d.edits == edits);
  }

  // ---- The configuration entry ----

  ghost predicate AtConfig(m: Machine, index: nat, e: JournalEntry) {
    && ModeOf(m).RecoverMode?
    && index == |m.state.transaction.value.entries| && m.state.transaction.value.config == Some(e)
  }

  lemma LedgerConfig(d: Disk, index: nat, e: JournalEntry)
    requires d.Valid() && AtConfig(d.M(), index, e)
    ensures index < |Entries(d.M())| && Entries(d.M())[index] == e
    ensures ValidHashes(e) && e.relativePath == CONFIG_PATH && e.quarantinePath != e.tombstonePath
    ensures e.tombstonePath !in d.artifacts
  {
    SoundNow(d.world, d.outside, d.states, d.log, d.M());
    hide ValidTransactionState, RecordsPart, ArtifactsOk, Inv, Grounded, JournalOf;
    assert Entries(d.M())[index] == e;
  }

  lemma ConfigPermitted(m: Machine, index: nat, e: JournalEntry, move: Move)
    requires AtConfig(m, index, e) && e.existed && (move.Restore? || move.DropQuarantine?)
    requires Get(m.artifacts, e.quarantinePath).Some? && Holds(Get(m.artifacts, e.quarantinePath), e.original)
    requires move.Restore? ==> e.relativePath !in m.live
    requires move.DropQuarantine? ==> e.tombstonePath !in m.artifacts
    ensures Enabled(m, MoveFile(index, move))
    ensures move.Restore? || e.relativePath in m.live ==> Undisturbed(m, MoveFile(index, move))
  {
    assert Entries(m)[index] == e;
  }

  /** What recovery of the configuration leaves: only a journaled original in quarantine. */
  ghost predicate ConfigAttempted(ok: bool, e: JournalEntry, v: View, after: Machine, quiet: bool, faultless: bool) {
    && (ok ==> Get(after.artifacts, e.quarantinePath).Some? ==>
         e.existed && Holds(Get(after.artifacts, e.quarantinePath), e.original))
    && (quiet && ok ==> ConfigRecoverable(e, ViewAt(after, e)))
    && (quiet && ok ==> v.live.Some? || v.quarantine.Some? ==> CONFIG_PATH in after.live)
    && (ok ==> e.quarantinePath in after.artifacts ==> Some(after.artifacts[e.quarantinePath]) == v.quarantine)
    && (quiet && faultless ==> (ok <==> ConfigRecoverable(e, v)))
    && (v.live.Some? && !Holds(v.live, e.installed) ==>
          Get(after.artifacts, e.quarantinePath) == v.quarantine && (quiet ==> CONFIG_PATH in after.live))
  }

  /** The two snapshots of the configuration. */
  method InspectConfig(d: Disk, e: JournalEntry, ghost index: nat)
      returns (ok: bool, live: Option<string>, quarantine: Option<string>)
    requires d.Valid() && AtConfig(d.M(), index, e)
    modifies d
    ensures d.Valid() && d.faults <= old(d.faults) && d.edits <= old(d.edits) && AtConfig(d.M(), index, e)
    ensures OnlyEntry(old(d.M()), d.M(), e, d.edits == old(d.edits)) && d.artifacts == old(d.artifacts)
    ensures ok ==> live == Get(old(d.live), e.relativePath) && quarantine == Get(d.artifacts, e.quarantinePath)
    ensures d.edits == old(d.edits) ==> (CONFIG_PATH in d.live <==> CONFIG_PATH in old(d.live))
    ensures !ok ==> d.faults < old(d.faults)
  {
    hide Grounded;
    ghost var m := d.M();
    ok, live := d.InspectLive(e.relativePath);
    DriftOnlyEntry(m, d.M(), e, d.edits == old(d.edits));
    quarantine := None;
    if ok {
      ok, quarantine := d.InspectArtifact(e.quarantinePath);
    }
  }

  /**
   * recoverConfigJournalEntry. A live configuration that was rewritten is kept, and so is the
   * original beside it; otherwise a missing one is restored and a superseded backup dropped.
   */
  method RecoverConfigJournalEntry(d: Disk, e: JournalEntry, ghost index: nat) returns (ok: bool)
    requires d.Valid() && AtConfig(d.M(), index, e)
    modifies d
    ensures d.Valid() && d.faults <= old(d.faults) && d.edits <= old(d.edits)
    ensures OnlyEntry(old(d.M()), d.M(), e, d.edits == old(d.edits))
    ensures ConfigAttempted(ok, e, ViewAt(old(d.M()), e), d.M(), d.edits == old(d.edits), d.faults == old(d.faults))
  {
    hide Grounded, OnlyEntry, AtConfig;
    LedgerConfig(d, index, e);
    ghost var m := d.M();
    var inspected, live, quarantine := InspectConfig(d, e, index);
    ghost var w, edits := d.M(), d.edits;
    if !inspected {
      return false;
    }
    if quarantine.Some? && (!e.existed || e.original != ShaOf(quarantine.value)) {
      return false;
    }
    if live.Some? && e.installed != ShaOf(live.value) {
      ok := d.Sync();
      return ok;
    }
    if !e.existed {
      ok := d.Sync();
      return ok;
    }
    if quarantine.None? {
      if live.None? {
        return false;
      }
      ok := d.Sync();
      return ok;
    }
    ok := RecoverConfigBackup(d, e, index, live.Some?, edits == old(d.edits));
    OnlyEntryTransitive(m, w, d.M(), e, edits == old(d.edits), d.edits == edits);
  }

  /** The original is in quarantine and the live configuration is absent, or is the edited one. */
  method RecoverConfigBackup(d: Disk, e: JournalEntry, ghost index: nat, present: bool, ghost quiet: bool)
      returns (ok: bool)
    requires d.Valid() && AtConfig(d.M(), index, e) && e.existed && (!d.outside ==> quiet)
    requires Holds(Get(d.artifacts, e.quarantinePath), e.original)
    requires quiet ==> present == (CONFIG_PATH in d.live)
    modifies d
    ensures d.Valid() && d.faults <= old(d.faults) && d.edits <= old(d.edits)
    ensures OnlyEntry(old(d.M()), d.M(), e, d.edits == old(d.edits))
    ensures ok ==> e.quarantinePath !in d.artifacts
    ensures ok && quiet && d.edits == old(d.edits) ==> CONFIG_PATH in d.live && e.tombstonePath !in d.artifacts
    ensures !ok && quiet && d.edits == old(d.edits) ==> d.faults < old(d.faults)
  {
    hide Grounded, Enabled, Undisturbed;
    LedgerConfig(d, index, e);
    ghost var m := d.M();
    if !present {
      if e.relativePath !in d.live {
        ConfigPermitted(m, index, e, Restore);
      }
      ok := d.MoveBack(e, index);
      EndedOnlyEntry(m, index, Restore, d.M(), d.edits == old(d.edits));
    } else {
      ok := d.Sync();
      if ok {
        ConfigPermitted(m, index, e, DropQuarantine);
        ok := d.RemoveArtifact(e, index, false, e.original.content);
        EndedOnlyEntry(m, index, DropQuarantine, d.M(), d.edits == old(d.edits));
      } else {
        DriftOnlyEntry(m, m, e, true);
      }
    }
    hide OnlyEntry;
    if ok {
      ok := d.Sync();
    }
  }

  // ---- The whole transaction ----

  /** Every artifact place of the journal is empty or holds the journaled bytes. */
  predicate ArtifactsMatch(m: Machine) {
    forall i :: 0 <= i < |Entries(m)| ==> ArtifactsMatchAt(m, Entries(m)[i])
  }

  predicate ArtifactsMatchAt(m: Machine, e: JournalEntry) {
    var v := ViewAt(m, e);
    && (v.quarantine.Some? ==> Holds(v.quarantine, e.original))
    && (v.tombstone.Some? ==> Holds(v.tombstone, e.tombstone))
  }

  /** What is at the two artifact places of every entry. */
  predicate Found(m: Machine, found: seq<(Option<string>, Option<string>)>) {
    && |found| == |Entries(m)|
    && forall i :: 0 <= i < |found| ==>
         && found[i].0 == Get(m.artifacts, Entries(m)[i].quarantinePath)
         && found[i].1 == Get(m.artifacts, Entries(m)[i].tombstonePath)
  }

  /** transactionArtifacts: every artifact is inspected before anything is changed. */
  method TransactionArtifacts(d: Disk) returns (ok: bool, found: seq<(Option<string>, Option<string>)>)
    requires d.Valid()
    modifies d`faults
    ensures d.Valid() && d.M() == old(d.M()) && d.faults <= old(d.faults) && d.edits == old(d.edits)
    ensures ok ==> ArtifactsMatch(d.M()) && Found(d.M(), found)
    ensures !ok && ArtifactsMatch(d.M()) ==> d.faults < old(d.faults)
  {
    hide Grounded;
    found := [];
    if d.state.transaction.None? {
      return true, found;
    }
    var all := AllEntries(d.state.transaction.value);
    var index := 0;
    while index < |all|
      invariant 0 <= index <= |all| && |found| == index
      invariant d.Valid() && d.M() == old(d.M()) && d.faults <= old(d.faults) && d.edits == old(d.edits)
      invariant forall i :: 0 <= i < index ==> ArtifactsMatchAt(d.M(), all[i])
      invariant forall i :: 0 <= i < index ==>
        && found[i].0 == Get(d.artifacts, all[i].quarantinePath)
        && found[i].1 == Get(d.artifacts, all[i].tombstonePath)
    {
      var e := all[index];
      var inspected, quarantine, tombstone;
      inspected, quarantine := d.InspectArtifact(e.quarantinePath);
      if !inspected {
        return false, found;
      }
      if quarantine.Some? && e.original != ShaOf(quarantine.value) {
        assert !ArtifactsMatchAt(d.M(), Entries(d.M())[index]);
        return false, found;
      }
      inspected, tombstone := d.InspectArtifact(e.tombstonePath);
      if !inspected {
        return false, found;
      }
      if tombstone.Some? && e.tombstone != ShaOf(tombstone.value) {
        assert !ArtifactsMatchAt(d.M(), Entries(d.M())[index]);
        return false, found;
      }
      found := found + [(quarantine, tombstone)];
      index := index + 1;
    }
    return true, found;
  }

  /** Every entry of the journal is in a combination recovery accepts. */
  ghost predicate AllRecoverable(m: Machine) {
    m.state.transaction.Some? ==>
      && ArtifactsMatch(m)
      && (forall i :: 0 <= i < |m.state.transaction.value.entries| ==>
           Recoverable(Entries(m)[i], ViewAt(m, Entries(m)[i])))
      && (m.state.transaction.value.config.Some? ==>
            ConfigRecoverable(m.state.transaction.value.config.value,
              ViewAt(m, m.state.transaction.value.config.value)))
  }

  /** The first `index` managed entries of `m0`'s journal are back, the rest are untouched. */
  ghost predicate RecoveredUpTo(m0: Machine, m: Machine, index: nat, quiet: bool)
    requires index <= |Entries(m0)|
  {
    && m == m0.(live := m.live, artifacts := m.artifacts)
    && (forall i :: 0 <= i < index ==>
          Entries(m0)[i].quarantinePath !in m.artifacts && Entries(m0)[i].tombstonePath !in m.artifacts)
    && (forall i :: index <= i < |Entries(m0)| ==>
          && Get(m.artifacts, Entries(m0)[i].quarantinePath) == Get(m0.artifacts, Entries(m0)[i].quarantinePath)
          && Get(m.artifacts, Entries(m0)[i].tombstonePath) == Get(m0.artifacts, Entries(m0)[i].tombstonePath))
    && (quiet ==> LiveRecovered(m0, m, index))
  }

  ghost predicate LiveRecovered(m0: Machine, m: Machine, index: nat)
    requires index <= |Entries(m0)|
  {
    && (forall i :: 0 <= i < index ==> Get(m.live, Entries(m0)[i].relativePath) == Bytes(Entries(m0)[i].original))
    && (forall p :: p != CONFIG_PATH && !HasEntry(Entries(m0)[..index], p) ==> Get(m.live, p) == Get(m0.live, p))
    && (CONFIG_PATH in m0.live <==> CONFIG_PATH in m.live)
  }

  lemma NoneRecovered(m0: Machine)
    ensures RecoveredUpTo(m0, m0, 0, true)
  {
  }

  lemma OneMoreRecovered(m0: Machine, m: Machine, w: Machine, index: nat, q: bool, quiet: bool)
    requires index < |Entries(m0)| && RecoveredUpTo(m0, m, index, q) && Separated(Entries(m0)) && m0.proc.Recovering?
    requires forall i :: 0 <= i < index ==> Entries(m0)[i].relativePath != CONFIG_PATH
    requires var e := Entries(m0)[index];
      && OnlyEntry(m, w, e, quiet) && e.relativePath != CONFIG_PATH
      && e.quarantinePath !in w.artifacts && e.tombstonePath !in w.artifacts
      && (quiet ==> ViewAt(w, e) == Original(e))
    ensures RecoveredUpTo(m0, w, index + 1, q && quiet)
  {
    if q && quiet {
      OneMoreLive(m0, m, w, index);
    }
    hide LiveRecovered, HasEntry;
    var all := Entries(m0);
    forall i | 0 <= i < |all| && i != index
      ensures Get(w.artifacts, all[i].quarantinePath) == Get(m.artifacts, all[i].quarantinePath)
      ensures Get(w.artifacts, all[i].tombstonePath) == Get(m.artifacts, all[i].tombstonePath)
    {
      assert all[index].quarantinePath != all[i].tombstonePath && all[index].tombstonePath != all[i].quarantinePath;
    }
    forall i | 0 <= i <= index
      ensures all[i].quarantinePath !in w.artifacts && all[i].tombstonePath !in w.artifacts
    {
      assert i < index ==>
        Get(w.artifacts, all[i].quarantinePath).None? && Get(w.artifacts, all[i].tombstonePath).None?;
    }
  }

  lemma MoreEntries(all: seq<JournalEntry>, index: nat, p: string)
    requires index < |all|
    ensures HasEntry(all[..index], p) ==> HasEntry(all[..index + 1], p)
  {
    if HasEntry(all[..index], p) {
      var i :| 0 <= i < index && all[..index][i].relativePath == p;
      assert all[..index + 1][i].relativePath == p;
    }
  }

  lemma OneMoreLive(m0: Machine, m: Machine, w: Machine, index: nat)
    requires index < |Entries(m0)| && LiveRecovered(m0, m, index) && Separated(Entries(m0))
    requires var e := Entries(m0)[index];
      OnlyEntry(m, w, e, true) && e.relativePath != CONFIG_PATH && ViewAt(w, e) == Original(e)
    requires forall i :: 0 <= i < index ==> Entries(m0)[i].relativePath != CONFIG_PATH
    ensures LiveRecovered(m0, w, index + 1)
  {
    var all := Entries(m0);
    forall p | p != CONFIG_PATH && !HasEntry(all[..index + 1], p)
      ensures Get(w.live, p) == Get(m0.live, p)
    {
      assert all[..index + 1][index].relativePath != p;
      MoreEntries(all, index, p);
    }
  }

  /** What has not been reached yet looks as it did. */
  lemma NextUntouched(m0: Machine, m: Machine, index: nat)
    requires index < |Entries(m0)| && RecoveredUpTo(m0, m, index, true) && Separated(Entries(m0))
    requires Entries(m0)[index].relativePath != CONFIG_PATH
    ensures ViewAt(m, Entries(m0)[index]) == ViewAt(m0, Entries(m0)[index])
  {
    var all := Entries(m0);
    assert !HasEntry(all[..index], all[index].relativePath);
  }

  lemma LedgerJournal(d: Disk)
    requires d.Valid() && d.state.transaction.Some?
    ensures Separated(Entries(d.M()))
    ensures forall i :: 0 <= i < |d.state.transaction.value.entries| ==> Entries(d.M())[i].relativePath != CONFIG_PATH
  {
    SoundNow(d.world, d.outside, d.states, d.log, d.M());
    hide ValidTransactionState, RecordsPart, ArtifactsOk, Inv, Grounded;
    forall i | 0 <= i < |d.state.transaction.value.entries|
      ensures Entries(d.M())[i].relativePath != CONFIG_PATH
    {
      assert Entries(d.M())[i] == d.state.transaction.value.entries[i];
    }
  }

  /** The loop over the managed entries. */
  method RecoverEntries(d: Disk) returns (ok: bool)
    requires d.Valid() && ModeOf(d.M()).RecoverMode?
    modifies d
    ensures d.Valid() && d.faults <= old(d.faults) && d.edits <= old(d.edits)
    ensures d.M() == old(d.M()).(live := d.live, artifacts := d.artifacts)
    ensures ok ==> RecoveredUpTo(old(d.M()), d.M(), |d.state.transaction.value.entries|, d.edits == old(d.edits))
    ensures d.edits == old(d.edits) && d.faults == old(d.faults) ==>
      (ok <==> ManagedRecoverable(old(d.M())))
  {
    hide Grounded, Recoverable, LiveRecovered, RecoveredUpTo, OnlyEntry, Separated;
    LedgerJournal(d);
    ghost var m0 := d.M();
    var entries := d.state.transaction.value.entries;
    NoneRecovered(m0);
    var index := 0;
    while index < |entries|
      invariant 0 <= index <= |entries|
      invariant d.Valid() && d.faults <= old(d.faults) && d.edits <= old(d.edits)
      invariant RecoveredUpTo(m0, d.M(), index, d.edits == old(d.edits))
      invariant d.edits == old(d.edits) && d.faults == old(d.faults) ==>
        forall i :: 0 <= i < index ==> Recoverable(entries[i], ViewAt(m0, entries[i]))
    {
      var e := entries[index];
      ghost var m, edits, faults := d.M(), d.edits, d.faults;
      StillEntries(m0, m, index, d.edits == old(d.edits));
      assert e == Entries(m0)[index] && Entries(m) == Entries(m0);
      if d.edits == old(d.edits) {
        NextUntouched(m0, m, index);
      }
      ok := RecoverOne(d, e, index);
      StillRecovering(m0, m, d.M(), e, index, edits == old(d.edits), d.edits == edits);
      if !ok {
        return false;
      }
      OneMoreRecovered(m0, m, d.M(), index, edits == old(d.edits), d.edits == edits);
      index := index + 1;
    }
    StillEntries(m0, d.M(), index, d.edits == old(d.edits));
    return true;
  }

  ghost predicate ManagedRecoverable(m: Machine) {
    m.state.transaction.Some? ==>
      forall i :: 0 <= i < |m.state.transaction.value.entries| ==>
        Recoverable(m.state.transaction.value.entries[i], ViewAt(m, m.state.transaction.value.entries[i]))
  }

  lemma StillEntries(m0: Machine, m: Machine, index: nat, quiet: bool)
    requires index <= |Entries(m0)| && RecoveredUpTo(m0, m, index, quiet)
    ensures m == m0.(live := m.live, artifacts := m.artifacts)
  {
  }

  lemma StillRecovering(m0: Machine, m: Machine, w: Machine, e: JournalEntry, index: nat, q: bool, quiet: bool)
    requires index <= |Entries(m0)| && RecoveredUpTo(m0, m, index, q) && OnlyEntry(m, w, e, quiet) &&
      m0.proc.Recovering?
    ensures w == m0.(live := w.live, artifacts := w.artifacts)
  {
  }

  /** One entry and the sync of the directories it is in. */
  method RecoverOne(d: Disk, e: JournalEntry, ghost index: nat) returns (ok: bool)
    requires d.Valid() && AtEntry(d.M(), index, e)
    modifies d
    ensures d.Valid() && d.faults <= old(d.faults) && d.edits <= old(d.edits)
    ensures OnlyEntry(old(d.M()), d.M(), e, d.edits == old(d.edits))
    ensures ok ==> e.quarantinePath !in d.artifacts && e.tombstonePath !in d.artifacts
    ensures ok && d.edits == old(d.edits) ==> ViewAt(d.M(), e) == Original(e)
    ensures d.edits == old(d.edits) && d.faults == old(d.faults) ==> (ok <==> Recoverable(e, ViewAt(old(d.M()), e)))
  {
    hide Grounded, Recoverable, OnlyEntry;
    ok := RecoverQuarantinedJournalEntry(d, e, index);
    if ok {
      ok := d.Sync();
    }
  }

  datatype RecoveryResult = Recovered | RecoveryFailed | PendingPromotion(generationID: string)

  /** What the attempt on the configuration entry, if there is one, leaves. */
  ghost predicate ConfigStage(config: Option<JournalEntry>, before: Machine, ok: bool, after: Machine, quiet: bool,
                              faultless: bool) {
    match config
    case None => after == before && ok
    case Some(e) =>
      OnlyEntry(before, after, e, quiet) && ConfigAttempted(ok, e, ViewAt(before, e), after, quiet, faultless)
  }

  method RecoverConfig(d: Disk, config: Option<JournalEntry>) returns (ok: bool)
    requires d.Valid() && ModeOf(d.M()).RecoverMode? && config == d.state.transaction.value.config
    modifies d
    ensures d.Valid() && d.faults <= old(d.faults) && d.edits <= old(d.edits)
    ensures ConfigStage(config, old(d.M()), ok, d.M(), d.edits == old(d.edits), d.faults == old(d.faults))
  {
    if config.None? {
      return true;
    }
    hide Grounded, OnlyEntry, ConfigAttempted;
    ok := RecoverConfigJournalEntry(d, config.value, |d.state.transaction.value.entries|);
  }

  /** The durable end of recovery is permitted once every entry is done. */
  lemma FinishPermitted(d: Disk, m0: Machine, m1: Machine, q: bool, quiet: bool, faultless: bool)
    requires d.Valid() && ModeOf(m0).RecoverMode? && !m0.state.promotion.Some?
    requires Separated(Entries(m0))
    requires forall i :: 0 <= i < |m0.state.transaction.value.entries| ==> Entries(m0)[i].relativePath != CONFIG_PATH
    requires RecoveredUpTo(m0, m1, |m0.state.transaction.value.entries|, q)
    requires ConfigStage(m0.state.transaction.value.config, m1, true, d.M(), quiet, faultless)
    requires !d.outside ==> q && quiet
    requires m0.state.transaction.value.config.Some? ==>
      m0.state.transaction.value.config.value.relativePath == CONFIG_PATH
    ensures Enabled(d.M(), FinishRecovery) && (!d.outside ==> Undisturbed(d.M(), FinishRecovery))
    ensures d.state == m0.state && d.lock == m0.lock && d.generations == m0.generations && d.proc.Recovering? &&
      d.game == m0.game
  {
    hide Grounded, LiveRecovered, Recoverable, ConfigRecoverable;
    var n := |m0.state.transaction.value.entries|;
    var all := Entries(m0);
    forall i | 0 <= i < n
      ensures ViewAt(d.M(), all[i]).quarantine.None? && ViewAt(d.M(), all[i]).tombstone.None?
      ensures !d.outside ==> ViewAt(d.M(), all[i]) == Original(all[i])
    {
      if m0.state.transaction.value.config.Some? {
        var e := m0.state.transaction.value.config.value;
        assert all[n] == e;
        assert all[i].quarantinePath != e.quarantinePath && all[i].tombstonePath != e.tombstonePath;
        assert all[i].quarantinePath != e.tombstonePath && all[i].tombstonePath != e.quarantinePath;
        assert Get(d.M().artifacts, all[i].quarantinePath) == Get(m1.artifacts, all[i].quarantinePath);
        assert Get(d.M().artifacts, all[i].tombstonePath) == Get(m1.artifacts, all[i].tombstonePath);
      }
      if !d.outside {
        RecoveredLive(m0, m1, n, i);
      }
    }
    if !d.outside && m0.state.transaction.value.config.Some? {
      ConfigIsBack(m0.state.transaction.value.config.value, m1, d.M(), faultless);
    }
  }

  /** A finished recovery of the configuration leaves a live one if there was one in either place. */
  lemma ConfigIsBack(e: JournalEntry, before: Machine, after: Machine, faultless: bool)
    requires e.relativePath == CONFIG_PATH && OnlyEntry(before, after, e, true)
    requires ConfigAttempted(true, e, ViewAt(before, e), after, true, faultless)
    ensures ViewAt(after, e).quarantine.Some? ==> ViewAt(after, e).live.Some?
  {
    hide ConfigRecoverable;
  }

  lemma RecoveredLive(m0: Machine, m1: Machine, n: nat, i: nat)
    requires i < n <= |Entries(m0)| && LiveRecovered(m0, m1, n)
    ensures Get(m1.live, Entries(m0)[i].relativePath) == Bytes(Entries(m0)[i].original)
  {
    hide HasEntry;
  }

  /** Nothing but live files and artifacts changed, or the recovered state was saved on top. */
  ghost predicate RecoveryFrame(m0: Machine, m: Machine) {
    && m.lock == m0.lock && m.generations == m0.generations && m.game == m0.game
    && (m.state == m0.state || m.state == RecoveredState(m0.state))
  }

  /** The managed live files of the journal are the originals, and nothing else moved. */
  ghost predicate RolledBack(m0: Machine, m: Machine) {
    m0.state.transaction.Some? ==>
      && (forall i :: 0 <= i < |m0.state.transaction.value.entries| ==>
            var e := m0.state.transaction.value.entries[i]; Get(m.live, e.relativePath) == Bytes(e.original))
      && (forall p :: p != CONFIG_PATH && !HasEntry(m0.state.transaction.value.entries, p) ==>
            Get(m.live, p) == Get(m0.live, p))
  }

  /**
   * RecoverInterruptedTransaction. A durable promotion intent blocks it; otherwise, with no
   * fault and no outside write, it succeeds exactly when every entry is recoverable, and then
   * the originals are live again and the candidate is the failure record.
   */
  method RecoverInterruptedTransaction(d: Disk) returns (r: RecoveryResult)
    requires d.Valid()
    modifies d
    ensures d.Valid() && d.faults <= old(d.faults) && d.edits <= old(d.edits)
    ensures RecoveryFrame(old(d.M()), d.M())
    ensures r.PendingPromotion? ==>
      old(d.state.promotion).Some? && r.generationID == old(d.state.promotion).value.generationID &&
        d.artifacts == old(d.artifacts)
    ensures old(d.state.promotion).Some? ==> d.state == old(d.state) && !r.Recovered?
    ensures old(d.state.promotion).Some? && d.faults == old(d.faults) ==> r.PendingPromotion?
    ensures r.Recovered? ==>
      && d.proc.Idle?
      && d.state == (if old(d.state).transaction.Some? then RecoveredState(old(d.state)) else old(d.state))
      && (d.edits == old(d.edits) ==> RolledBack(old(d.M()), d.M()))
    ensures d.edits == old(d.edits) && d.faults == old(d.faults) && old(d.state.promotion).None? ==>
      (r.Recovered? <==> AllRecoverable(old(d.M())))
  {
    ghost var m0 := d.M();
    BeginRecovery(d);
    hide Grounded, RolledBack, AllRecoverable, ArtifactsMatch;
    var ok, s := d.Load();
    if !ok {
      return RecoveryFailed;
    }
    if s.promotion.Some? {
      return PendingPromotion(s.promotion.value.generationID);
    }
    if s.transaction.None? {
      Settled(d);
      NothingToRollBack(m0, d.M());
      return Recovered;
    }
    ManagedPaths(d);
    var found;
    ok, found := TransactionArtifacts(d);
    if !ok {
      if !ArtifactsMatch(d.M()) {
        MismatchIsNotRecoverable(m0, d.M());
      }
      return RecoveryFailed;
    }
    ok := RecoverFiles(d, m0);
    if !ok {
      return RecoveryFailed;
    }
    ghost var m, edits := d.M(), d.edits;
    ok := FinishRecovering(d);
    if edits == old(d.edits) && d.edits == edits {
      RolledBackDrift(m0, m, d.M());
    }
    r := if ok then Recovered else RecoveryFailed;
  }

  lemma ManagedPaths(d: Disk)
    requires d.Valid() && d.state.transaction.Some?
    ensures forall i :: 0 <= i < |d.state.transaction.value.entries| ==>
      d.state.transaction.value.entries[i].relativePath != CONFIG_PATH
  {
    hide Grounded;
    LedgerJournal(d);
    forall i | 0 <= i < |d.state.transaction.value.entries|
      ensures d.state.transaction.value.entries[i].relativePath != CONFIG_PATH
    {
      assert Entries(d.M())[i] == d.state.transaction.value.entries[i];
    }
  }

  /** Both file stages, the managed entries first. */
  method RecoverFiles(d: Disk, ghost m0: Machine) returns (ok: bool)
    requires d.Valid() && ModeOf(d.M()).RecoverMode? && d.M() == m0.(proc := Recovering) && ArtifactsMatch(d.M())
    modifies d
    ensures d.Valid() && d.faults <= old(d.faults) && d.edits <= old(d.edits)
    ensures RecoveryFrame(m0, d.M()) && d.state == m0.state
    ensures ok ==> d.Permitted(FinishRecovery) && d.proc.Recovering?
    ensures ok && d.edits == old(d.edits) ==> RolledBack(m0, d.M())
    ensures d.edits == old(d.edits) && d.faults == old(d.faults) ==> (ok <==> AllRecoverable(m0))
  {
    LedgerJournal(d);
    ConfigNamed(d);
    SplitRecoverable(m0);
    ghost var start := d.M();
    hide Grounded, ManagedRecoverable, RecoveredUpTo, ArtifactsMatch, AllRecoverable, RolledBack, Separated, Enabled,
      Undisturbed, ConfigRecoverable;
    ok := RecoverEntries(d);
    FrameOf(m0, d.M());
    if ok {
      ghost var edits := d.edits;
      ok := RecoverConfigStage(d, m0, start, edits == old(d.edits));
    }
  }

  /** The second stage, from where the first one ended. */
  method RecoverConfigStage(d: Disk, ghost m0: Machine, ghost start: Machine, ghost q: bool) returns (ok: bool)
    requires d.Valid() && ModeOf(start).RecoverMode? && start == m0.(proc := Recovering)
    requires d.M() == start.(live := d.live, artifacts := d.artifacts) && (!d.outside ==> q)
    requires Separated(Entries(start))
    requires forall i :: 0 <= i < |m0.state.transaction.value.entries| ==> Entries(start)[i].relativePath != CONFIG_PATH
    requires m0.state.transaction.value.config.Some? ==>
      m0.state.transaction.value.config.value.relativePath == CONFIG_PATH
    requires RecoveredUpTo(start, d.M(), |m0.state.transaction.value.entries|, q)
    modifies d
    ensures d.Valid() && d.faults <= old(d.faults) && d.edits <= old(d.edits)
    ensures RecoveryFrame(m0, d.M()) && d.state == m0.state
    ensures ok ==> d.Permitted(FinishRecovery) && d.proc.Recovering?
    ensures ok && q && d.edits == old(d.edits) ==> RolledBack(m0, d.M())
    ensures q && d.edits == old(d.edits) && d.faults == old(d.faults) ==>
      (ok <==> (m0.state.transaction.value.config.Some? ==>
        ConfigRecoverable(m0.state.transaction.value.config.value,
          ViewAt(start, m0.state.transaction.value.config.value))))
  {
    hide Grounded, RecoveredUpTo, RolledBack, Separated, Enabled, Undisturbed, ConfigStage, ConfigRecoverable;
    var config := d.state.transaction.value.config;
    ghost var m1 := d.M();
    if q {
      ConfigUntouched(start, m1, true);
    }
    ok := RecoverConfig(d, config);
    StageFrame(config, m1, ok, d.M(), d.edits == old(d.edits), d.faults == old(d.faults));
    StageExact(config, start, m1, ok, d.M(), q, d.edits == old(d.edits), d.faults == old(d.faults));
    FrameOf(m0, d.M());
    if ok {
      FilesDone(d, m0, start, m1, q, d.edits == old(d.edits), d.faults == old(d.faults));
    }
  }

  lemma FrameOf(m0: Machine, m: Machine)
    requires m.lock == m0.lock && m.generations == m0.generations && m.game == m0.game && m.state == m0.state
    ensures RecoveryFrame(m0, m)
  {
  }

  /** After both stages the end of recovery is permitted, and the originals are back. */
  lemma FilesDone(d: Disk, m0: Machine, start: Machine, m1: Machine, q: bool, quiet: bool, faultless: bool)
    requires d.Valid() && ModeOf(start).RecoverMode? && start == m0.(proc := Recovering)
    requires Separated(Entries(start))
    requires forall i :: 0 <= i < |m0.state.transaction.value.entries| ==> Entries(start)[i].relativePath != CONFIG_PATH
    requires m0.state.transaction.value.config.Some? ==>
      m0.state.transaction.value.config.value.relativePath == CONFIG_PATH
    requires RecoveredUpTo(start, m1, |m0.state.transaction.value.entries|, q)
    requires ConfigStage(m0.state.transaction.value.config, m1, true, d.M(), quiet, faultless)
    requires !d.outside ==> q && quiet
    ensures d.Permitted(FinishRecovery) && d.proc.Recovering?
    ensures q && quiet ==> RolledBack(m0, d.M())
  {
    hide Grounded, RecoveredUpTo, ConfigStage, RolledBack, Separated, Enabled, Undisturbed;
    StageSucceeds(m0.state.transaction.value.config, m1, d.M(), quiet, faultless);
    FinishPermitted(d, start, m1, q, quiet, false);
    if q && quiet {
      StageRolledBack(m0, start, m1, d.M(), m0.state.transaction.value.config, true);
    }
  }

  /** Whatever the process was doing is over. */
  method BeginRecovery(d: Disk)
    requires d.Valid()
    modifies d
    ensures d.Valid() && d.M() == old(d.M()).(proc := Recovering) && d.faults == old(d.faults) &&
      d.edits == old(d.edits)
  {
    hide Grounded;
    d.Turn(Recovering, d.game, Crash);
  }

  method Settled(d: Disk)
    requires d.Valid() && d.state.transaction.None? && d.state.promotion.None?
    modifies d
    ensures d.Valid() && d.M() == old(d.M()).(proc := Idle) && d.faults == old(d.faults) && d.edits == old(d.edits)
  {
    hide Grounded;
    d.Turn(Idle, d.game, Settle);
  }

  lemma NothingToRollBack(m0: Machine, m: Machine)
    requires m0.state.transaction.None?
    ensures RolledBack(m0, m) && AllRecoverable(m0)
  {
  }

  lemma MismatchIsNotRecoverable(m0: Machine, m: Machine)
    requires m == m0.(proc := Recovering) && !ArtifactsMatch(m)
    ensures !AllRecoverable(m0)
  {
    var i :| 0 <= i < |Entries(m)| && !ArtifactsMatchAt(m, Entries(m)[i]);
    assert !ArtifactsMatchAt(m0, Entries(m0)[i]);
  }

  lemma ConfigNamed(d: Disk)
    requires d.Valid() && d.state.transaction.Some?
    ensures d.state.transaction.value.config.Some? ==>
      d.state.transaction.value.config.value.relativePath == CONFIG_PATH
  {
    SoundNow(d.world, d.outside, d.states, d.log, d.M());
    hide ValidTransactionState, RecordsPart, ArtifactsOk, Inv, Grounded, JournalOf, Separated;
  }

  lemma SplitRecoverable(m0: Machine)
    requires m0.state.transaction.Some? && ArtifactsMatch(m0.(proc := Recovering))
    ensures AllRecoverable(m0) <==>
      && ManagedRecoverable(m0.(proc := Recovering))
      && (m0.state.transaction.value.config.Some? ==>
            ConfigRecoverable(m0.state.transaction.value.config.value,
              ViewAt(m0, m0.state.transaction.value.config.value)))
  {
    hide Recoverable, ConfigRecoverable;
    var m := m0.(proc := Recovering);
    forall i | 0 <= i < |Entries(m0)|
      ensures ArtifactsMatchAt(m0, Entries(m0)[i])
    {
      assert ArtifactsMatchAt(m, Entries(m)[i]);
    }
    forall i | 0 <= i < |m0.state.transaction.value.entries|
      ensures Entries(m0)[i] == m0.state.transaction.value.entries[i]
      ensures ViewAt(m0, Entries(m0)[i]) == ViewAt(m, m.state.transaction.value.entries[i])
    {
    }
  }

  /** The managed stage leaves what decides about the configuration alone. */
  lemma ConfigUntouched(start: Machine, m1: Machine, quiet: bool)
    requires start.state.transaction.Some?
    requires RecoveredUpTo(start, m1, |start.state.transaction.value.entries|, quiet) && quiet
    requires start.state.transaction.value.config.Some? ==>
      start.state.transaction.value.config.value.relativePath == CONFIG_PATH
    ensures start.state.transaction.value.config.Some? ==>
      var e := start.state.transaction.value.config.value;
      ConfigRecoverable(e, ViewAt(start, e)) <==> ConfigRecoverable(e, ViewAt(m1, e))
  {
    hide HasEntry;
    if start.state.transaction.value.config.Some? {
      var n := |start.state.transaction.value.entries|;
      assert Entries(start)[n] == start.state.transaction.value.config.value;
    }
  }

  lemma StageFrame(config: Option<JournalEntry>, before: Machine, ok: bool, after: Machine, quiet: bool,
                   faultless: bool)
    requires ConfigStage(config, before, ok, after, quiet, faultless) && before.proc.Recovering?
    ensures after == before.(live := after.live, artifacts := after.artifacts)
  {
  }

  lemma StageExact(config: Option<JournalEntry>, start: Machine, before: Machine, ok: bool, after: Machine,
                   q: bool, quiet: bool, faultless: bool)
    requires ConfigStage(config, before, ok, after, quiet, faultless)
    requires q && config.Some? ==>
      (ConfigRecoverable(config.value, ViewAt(start, config.value)) <==>
        ConfigRecoverable(config.value, ViewAt(before, config.value)))
    ensures q && quiet && faultless ==>
      (ok <==> (config.Some? ==> ConfigRecoverable(config.value, ViewAt(start, config.value))))
  {
    hide ConfigRecoverable, OnlyEntry;
  }

  /** A success is a success however many faults there were before it. */
  lemma StageSucceeds(config: Option<JournalEntry>, before: Machine, after: Machine, quiet: bool, faultless: bool)
    requires ConfigStage(config, before, true, after, quiet, faultless)
    ensures ConfigStage(config, before, true, after, quiet, false)
  {
    hide ConfigRecoverable, OnlyEntry;
  }

  lemma StageRolledBack(m0: Machine, start: Machine, m1: Machine, w: Machine, config: Option<JournalEntry>,
                        faultless: bool)
    requires start == m0.(proc := Recovering) && m0.state.transaction.Some? &&
      config == m0.state.transaction.value.config
    requires RecoveredUpTo(start, m1, |m0.state.transaction.value.entries|, true)
    requires config.Some? ==> config.value.relativePath == CONFIG_PATH
    requires forall i :: 0 <= i < |m0.state.transaction.value.entries| ==> Entries(start)[i].relativePath != CONFIG_PATH
    requires ConfigStage(config, m1, true, w, true, false)
    ensures RolledBack(m0, w)
  {
    hide ConfigAttempted;
    var entries := m0.state.transaction.value.entries;
    assert Entries(start)[..|entries|] == entries;
    forall p | p != CONFIG_PATH
      ensures Get(w.live, p) == Get(m1.live, p)
    {
    }
    forall i | 0 <= i < |entries|
      ensures Get(w.live, entries[i].relativePath) == Bytes(entries[i].original)
    {
      assert Entries(start)[i] == entries[i];
      assert Get(w.live, entries[i].relativePath) == Get(m1.live, entries[i].relativePath);
    }
  }

  /** The last save: the transaction is cleared and the candidate becomes the failure record. */
  method FinishRecovering(d: Disk) returns (ok: bool)
    requires d.Valid() && d.Permitted(FinishRecovery) && d.proc.Recovering? && d.state.promotion.None?
    modifies d
    ensures d.Valid() && d.faults <= old(d.faults) && d.edits <= old(d.edits)
    ensures d.lock == old(d.lock) && d.generations == old(d.generations) && d.game == old(d.game)
    ensures d.state == old(d.state) || d.state == RecoveredState(old(d.state))
    ensures d.edits == old(d.edits) ==> d.live - {CONFIG_PATH} == old(d.live) - {CONFIG_PATH}
    ensures ok ==> d.state == RecoveredState(old(d.state)) && d.proc.Idle?
    ensures !ok ==> d.faults < old(d.faults)
  {
    hide Grounded, Enabled, Undisturbed;
    ok := d.SaveState(RecoveredState(d.state), Recovering, KeptBackups(d.M()), FinishRecovery);
    if ok {
      Settled(d);
    }
  }

  lemma RolledBackDrift(m0: Machine, m: Machine, w: Machine)
    requires RolledBack(m0, m) && w.live - {CONFIG_PATH} == m.live - {CONFIG_PATH}
    requires m0.state.transaction.Some? ==>
      forall i :: 0 <= i < |m0.state.transaction.value.entries| ==>
        m0.state.transaction.value.entries[i].relativePath != CONFIG_PATH
    ensures RolledBack(m0, w)
  {
    forall p | p != CONFIG_PATH
      ensures Get(w.live, p) == Get(m.live, p)
    {
      assert Get(w.live - {CONFIG_PATH}, p) == Get(m.live - {CONFIG_PATH}, p);
    }
  }
}
