/**
 * One journal entry on its own: the three places its files can be, and the file operation
 * that recovery performs next from each combination.
 */
module EntryRecovery {
  import opened Prelude
  import opened Records

  /** What is at the live path, in quarantine and in the tombstone of one entry. */
  datatype View = View(live: Option<string>, quarantine: Option<string>, tombstone: Option<string>)

  /** The single file operations that Apply, recovery and promotion are made of. */
  datatype Move =
    | Quarantine          // live -> quarantine
    | Install             // publish the new bytes at an absent live path
    | Restore             // quarantine -> live
    | Tombstone           // live -> tombstone
    | DropTombstone       // unlink the tombstone
    | DropQuarantine      // unlink the quarantine

  datatype Next = Done | Refuse | Do(move: Move)

  function Bytes(sha: Sha): Option<string> {
    if sha.ShaOf? then Some(sha.content) else None
  }

  /** The effect of one operation on the three places. */
  function After(e: JournalEntry, v: View, move: Move): View {
    match move
    case Quarantine => View(None, v.live, v.tombstone)
    case Install => View(Bytes(e.installed), v.quarantine, v.tombstone)
    case Restore => View(v.quarantine, None, v.tombstone)
    case Tombstone => View(None, v.quarantine, v.live)
    case DropTombstone => View(v.live, v.quarantine, None)
    case DropQuarantine => View(v.live, None, v.tombstone)
  }

  predicate Holds(place: Option<string>, sha: Sha) {
    place.Some? && sha == ShaOf(place.value)
  }

  /** Journal entries as validateTransactionState accepts them, without their paths. */
  predicate ValidHashes(e: JournalEntry) {
    && (if e.existed then e.original.ShaOf? else e.original.NoSha?)
    && (e.installed.NoSha? ==> e.existed)
    && !e.installed.BadSha?
    && e.tombstone == e.installed
  }

  /**
   * recoverQuarantinedJournalEntry, one operation at a time: what a recovery that finds the
   * entry in view `v` does first.
   */
  function NextMove(e: JournalEntry, v: View): Next {
    if v.quarantine.Some? && (!e.existed || !Holds(v.quarantine, e.original)) then Refuse
    else if v.tombstone.Some? && !Holds(v.tombstone, e.tombstone) then Refuse
    else if !e.existed then
      if v.tombstone.Some? then
        if v.live.Some? then Refuse else Do(DropTombstone)
      else if v.live.None? then Done
      else if !Holds(v.live, e.installed) then Refuse
      else Do(Tombstone)
    else if v.quarantine.None? then
      if !Holds(v.live, e.original) then Refuse
      else if v.tombstone.Some? then Do(DropTombstone)
      else Done
    else if Holds(v.live, e.original) && v.tombstone.None? then Do(DropQuarantine)
    else if e.installed.NoSha? then
      if v.tombstone.Some? || v.live.Some? then Refuse else Do(Restore)
    else if v.tombstone.Some? then
      if v.live.Some? then Refuse else Do(Restore)
    else if v.live.None? then Do(Restore)
    else if !Holds(v.live, e.installed) then Refuse
    else Do(Tombstone)
  }

  /** The state before Apply touched the entry. */
  function Original(e: JournalEntry): View {
    View(Bytes(e.original), None, None)
  }

  /** The state after Apply finished the entry. */
  function Installed(e: JournalEntry): View {
    View(Bytes(e.installed), Bytes(e.original), None)
  }

  /**
   * The combinations recovery accepts, listed: (original, -, -); the same with a second copy
   * in quarantine or a leftover tombstone; the original only in quarantine, alone, beside the
   * installed file, or beside its tombstone; and for a new file nothing, or the installed
   * bytes at exactly one of the live path and the tombstone.
   */
  predicate Recoverable(e: JournalEntry, v: View) {
    var o, i := Bytes(e.original), Bytes(e.installed);
    if e.existed then
      || v == View(o, None, None)
      || v == View(o, o, None)
      || v == View(None, o, None)
      || (i.Some? && (v == View(i, o, None) || v == View(None, o, i) || v == View(o, None, i)))
    else
      || v == View(None, None, None)
      || v == View(i, None, None)
      || v == View(None, None, i)
  }

  /** Every operation of recovery decreases this. */
  function Distance(e: JournalEntry, v: View): nat {
    if v == Original(e) then 0
    else if v.tombstone.Some? then (if v.quarantine.Some? then 2 else 1)
    else if v.quarantine.Some? && v.live.Some? then (if Holds(v.live, e.original) then 1 else 3)
    else if v.quarantine.Some? then 1
    else 2
  }

  /** Recovery refuses exactly the combinations that are not listed, and stops exactly at the original. */
  lemma RefusesExactly(e: JournalEntry, v: View)
    requires ValidHashes(e)
    ensures NextMove(e, v).Refuse? <==> !Recoverable(e, v)
    ensures NextMove(e, v).Done? <==> v == Original(e)
  {
  }

  /** Restartability: whatever recovery does, it does one step towards the original and may be interrupted after it. */
  lemma MoveApproachesOriginal(e: JournalEntry, v: View)
    requires ValidHashes(e) && NextMove(e, v).Do?
    ensures var w := After(e, v, NextMove(e, v).move); Recoverable(e, w) && Distance(e, w) < Distance(e, v)
  {
  }

  /** Recovery of one entry with no interruption: its operations in order, then the final view. */
  function Recover(e: JournalEntry, v: View): (r: View)
    requires ValidHashes(e)
    ensures Recoverable(e, v) ==> r == Original(e)
    ensures !Recoverable(e, v) ==> r == v
    decreases Distance(e, v)
  {
    RefusesExactly(e, v);
    var next := NextMove(e, v);
    if next.Do? then
      MoveApproachesOriginal(e, v);
      Recover(e, After(e, v, next.move))
    else v
  }

  /** Any number of interrupted recoveries: the operations performed so far, from the first. */
  ghost predicate RecoveryTrace(e: JournalEntry, views: seq<View>) {
    && |views| > 0
    && forall k :: 0 <= k < |views| - 1 ==>
         NextMove(e, views[k]).Do? && views[k + 1] == After(e, views[k], NextMove(e, views[k]).move)
  }

  /**
   * Interrupted anywhere and restarted any number of times, recovery stays recoverable, needs
   * at most Distance operations in all, and a completed restart ends at the original.
   */
  lemma {:induction false} RestartableRecovery(e: JournalEntry, views: seq<View>)
    requires ValidHashes(e) && RecoveryTrace(e, views) && Recoverable(e, views[0])
    ensures var last := views[|views| - 1];
      && Recoverable(e, last)
      && |views| - 1 + Distance(e, last) <= Distance(e, views[0]) <= 3
      && Recover(e, last) == Original(e)
    decreases |views|
  {
    if |views| > 1 {
      MoveApproachesOriginal(e, views[0]);
      assert views[1..][|views| - 2] == views[|views| - 1];
      RestartableRecovery(e, views[1..]);
    }
  }

  /** The views Apply passes through: untouched, original set aside, finished. */
  predicate Applying(e: JournalEntry, v: View) {
    || v == Original(e)
    || (e.existed && v == View(None, Bytes(e.original), None))
    || v == Installed(e)
  }

  /** Whatever Apply can leave behind, recovery accepts; and so the original is never gone. */
  lemma ApplyLeavesRecoverable(e: JournalEntry, v: View)
    requires ValidHashes(e) && Applying(e, v)
    ensures Recoverable(e, v)
  {
  }

  lemma OriginalConserved(e: JournalEntry, v: View)
    requires ValidHashes(e) && e.existed && Recoverable(e, v)
    ensures Holds(v.live, e.original) || Holds(v.quarantine, e.original)
  {
  }

  // ---- The BepInEx.cfg entry ----

  /** recoverConfigJournalEntry, one operation at a time. */
  function NextConfigMove(e: JournalEntry, v: View): Next {
    if v.quarantine.Some? && (!e.existed || !Holds(v.quarantine, e.original)) then Refuse
    else if v.live.Some? && !Holds(v.live, e.installed) then Done
    else if !e.existed then Done
    else if v.quarantine.None? then (if v.live.None? then Refuse else Done)
    else if v.live.None? then Do(Restore)
    else Do(DropQuarantine)
  }

  /** The configuration is recoverable when a copy survives and the backup is the journaled one. */
  predicate ConfigRecoverable(e: JournalEntry, v: View) {
    && (v.quarantine.Some? ==> e.existed && Holds(v.quarantine, e.original))
    && (e.existed ==> v.live.Some? || v.quarantine.Some?)
  }

  lemma ConfigRefusesExactly(e: JournalEntry, v: View)
    requires ValidHashes(e)
    ensures NextConfigMove(e, v).Refuse? <==> !ConfigRecoverable(e, v)
    ensures NextConfigMove(e, v).Do? ==>
      var w := After(e, v, NextConfigMove(e, v).move); ConfigRecoverable(e, w) && NextConfigMove(e, w).Done?
  {
  }

  /** A rewritten live configuration is left alone, and so is the original kept beside it. */
  lemma RewrittenConfigKept(e: JournalEntry, v: View)
    requires ValidHashes(e) && ConfigRecoverable(e, v)
    requires v.live.Some? && !Holds(v.live, e.installed)
    ensures NextConfigMove(e, v) == Done
  {
  }

  /**
   * What a finished recovery leaves of the configuration: the live one if there is one, edited,
   * rewritten or created, and only otherwise the original. Neither is ever lost: a backup is
   * dropped only beside the edited file, and then it was the journaled original.
   */
  lemma ConfigOutcome(e: JournalEntry, v: View) returns (w: View)
    requires ValidHashes(e) && ConfigRecoverable(e, v)
    ensures w == (if NextConfigMove(e, v).Do? then After(e, v, NextConfigMove(e, v).move) else v) &&
      NextConfigMove(e, w).Done?
    ensures w.live == if v.live.Some? then v.live else v.quarantine
    ensures v.quarantine.Some? && w.quarantine.None? ==>
      v.quarantine == Bytes(e.original) && (w.live == v.quarantine || Holds(v.live, e.installed))
  {
    w := if NextConfigMove(e, v).Do? then After(e, v, NextConfigMove(e, v).move) else v;
  }
}
