/** ModManager.Apply: the journal it builds, and the swap of files under it. */
module Applies {
  import opened Prelude
  import opened Packages
  import opened Records
  import opened Journal
  import opened EntryRecovery
  import opened Machine
  import opened Invariant
  import opened Ledgers
  import opened Runs
  import opened Convergence
  import opened Validation
  import opened Disks
  import opened Stores
  import opened Promotions
  import ConfigEdit

  // ---- The paths of a transaction ----

  predicate Ascending(paths: seq<string>) {
    forall i, k :: 0 <= i < k < |paths| ==> StringLeq(paths[i], paths[k]) && paths[i] != paths[k]
  }

  function InsertPath(path: string, paths: seq<string>): seq<string> {
    if paths == [] || StringLeq(path, paths[0]) then [path] + paths else [paths[0]] + InsertPath(path, paths[1..])
  }

  /** slices.Sort. */
  function SortPaths(paths: seq<string>): seq<string> {
    if paths == [] then [] else InsertPath(paths[0], SortPaths(paths[1..]))
  }

  lemma {:induction false} InsertPathSorts(path: string, paths: seq<string>)
    requires Ascending(paths) && path !in paths
    ensures Ascending(InsertPath(path, paths))
    ensures forall p :: p in InsertPath(path, paths) <==> p == path || p in paths
  {
    hide StringLeq;
    if paths == [] {
    } else if StringLeq(path, paths[0]) {
      forall k | 0 <= k < |paths|
        ensures StringLeq(path, paths[k])
      {
        StringOrder(path, paths[0], paths[k]);
      }
    } else {
      InsertPathSorts(path, paths[1..]);
      StringOrder(path, paths[0], paths[0]);
      var rest := InsertPath(path, paths[1..]);
      forall k | 0 <= k < |rest|
        ensures StringLeq(paths[0], rest[k]) && paths[0] != rest[k]
      {
        assert rest[k] in rest;
        if rest[k] != path {
          var i :| 0 <= i < |paths[1..]| && paths[1..][i] == rest[k];
          assert paths[i + 1] == rest[k];
        }
      }
    }
  }

  predicate Distinct(paths: seq<string>) {
    forall i, k :: 0 <= i < k < |paths| ==> paths[i] != paths[k]
  }

  lemma {:induction false} SortPathsSorts(paths: seq<string>)
    requires Distinct(paths)
    ensures Ascending(SortPaths(paths))
    ensures forall p :: p in SortPaths(paths) <==> p in paths
  {
    if paths != [] {
      SortPathsSorts(paths[1..]);
      hide SortPaths, Ascending;
      assert paths[0] !in paths[1..];
      InsertPathSorts(paths[0], SortPaths(paths[1..]));
    }
  }

  /** The keys of a map, in whatever order, that were not seen before. */
  method Collect(keys: set<string>, seen: set<string>, before: seq<string>) returns (paths: seq<string>)
    requires Distinct(before) && forall p :: p in before <==> p in seen
    ensures Distinct(paths) && forall p :: p in paths <==> p in seen || p in keys
  {
    paths := before;
    var rest := keys;
    while rest != {}
      invariant rest <= keys
      invariant Distinct(paths) && forall p :: p in paths <==> p in seen || p in keys - rest
      decreases |rest|
    {
      var p :| p in rest;
      if p !in seen {
        paths := paths + [p];
      }
      rest := rest - {p};
    }
  }

  /** unionManagedPaths: both inventories in whatever order, then sorted. */
  method UnionManagedPaths(left: map<string, string>, right: map<string, string>) returns (paths: seq<string>)
    ensures Ascending(paths) && Distinct(paths)
    ensures forall p :: p in paths <==> p in left || p in right
  {
    hide StringLeq, SortPaths;
    paths := Collect(left.Keys, {}, []);
    paths := Collect(right.Keys, left.Keys, paths);
    SortPathsSorts(paths);
    paths := SortPaths(paths);
  }

  // ---- The journal ----

  function Hash(content: Option<string>): Sha {
    if content.Some? then ShaOf(content.value) else NoSha
  }

  /** The entry of one managed path. */
  function EntryFor(id: string, index: nat, path: string, prior: map<string, string>,
                    next: map<string, string>): JournalEntry {
    JournalEntry(path, QuarantineName(id, index), TombstoneName(id, index), path in prior,
                 Hash(Get(prior, path)), Hash(Get(next, path)), Hash(Get(next, path)))
  }

  function ConfigEntryFor(id: string, index: nat, snapshot: Option<string>, data: string): JournalEntry {
    JournalEntry(CONFIG_PATH, QuarantineName(id, index), TombstoneName(id, index), snapshot.Some?,
                 Hash(snapshot), ShaOf(data), ShaOf(data))
  }

  /** The configuration is journaled unless its bytes stay as they are. */
  function ConfigFor(id: string, index: nat, snapshot: Option<string>, data: string): Option<JournalEntry> {
    if snapshot == Some(data) then None else Some(ConfigEntryFor(id, index, snapshot, data))
  }

  /** What Apply writes for the sorted union of two inventories. */
  ghost predicate IsJournalFor(j: TransactionJournal, id: string, paths: seq<string>, prior: map<string, string>,
                               next: map<string, string>, snapshot: Option<string>, data: string) {
    && j.generationID == id
    && |j.entries| == |paths|
    && (forall i :: 0 <= i < |paths| ==> j.entries[i] == EntryFor(id, i, paths[i], prior, next))
    && j.config == ConfigFor(id, |paths|, snapshot, data)
  }

  method BuildEntries(id: string, paths: seq<string>, prior: map<string, string>, next: map<string, string>)
      returns (entries: seq<JournalEntry>)
    ensures |entries| == |paths| && forall i :: 0 <= i < |paths| ==>
      entries[i] == EntryFor(id, i, paths[i], prior, next)
  {
    hide QuarantineName, TombstoneName;
    entries := [];
    for index := 0 to |paths|
      invariant |entries| == index && forall i :: 0 <= i < index ==>
        entries[i] == EntryFor(id, i, paths[i], prior, next)
    {
      var path := paths[index];
      var original, installed := NoSha, NoSha;
      if path in prior {
        original := ShaOf(prior[path]);
      }
      if path in next {
        installed := ShaOf(next[path]);
      }
      entries := entries +
        [JournalEntry(path, QuarantineName(id, index), TombstoneName(id, index), path in prior, original, installed,
          installed)];
    }
  }

  lemma ConfigPathParts()
    ensures IsRelativePath(CONFIG_PATH) && Split(CONFIG_PATH, '/')[0] != STATE_DIRECTORY
  {
    hide Split;
    assert CONFIG_PATH == "BepInEx" + "/" + "config/BepInEx.cfg" &&
      "config/BepInEx.cfg" == "config" + "/" + "BepInEx.cfg";
    SplitPart("BepInEx", "config/BepInEx.cfg", '/');
    SplitPart("config", "BepInEx.cfg", '/');
    SplitSingle("BepInEx.cfg", '/');
  }

  /** No managed path is below the reserved state directory. */
  lemma ManagedPathOutsideState(p: string)
    requires IsManagedRuntimePath(p)
    ensures Split(p, '/')[0] != STATE_DIRECTORY
  {
    hide Split;
    if "dotnet/" <= p {
      FirstPart("dotnet", p);
    } else if "BepInEx/core/" <= p || "BepInEx/patchers/" <= p || "BepInEx/plugins/saltydk-managed/" <= p {
      BelowBepInEx(p);
      FirstPart("BepInEx", p);
    } else {
      SplitSingle(p, '/');
    }
  }

  lemma FirstPart(head: string, p: string)
    requires '/' !in head && head + "/" <= p
    ensures Split(p, '/')[0] == head
  {
    var rest := p[|head| + 1..];
    assert p == (head + ['/']) + rest;
    hide Split;
    SplitPart(head, rest, '/');
  }

  lemma BelowBepInEx(p: string)
    requires "BepInEx/core/" <= p || "BepInEx/patchers/" <= p || "BepInEx/plugins/saltydk-managed/" <= p
    ensures "BepInEx" + "/" <= p
  {
    assert "BepInEx" + "/" == "BepInEx/";
    assert "BepInEx/" <= "BepInEx/core/" && "BepInEx/" <= "BepInEx/patchers/" &&
      "BepInEx/" <= "BepInEx/plugins/saltydk-managed/";
  }

  ghost predicate ManagedPaths(files: map<string, string>) {
    forall p :: p in files ==> IsRelativePath(p) && IsManagedRuntimePath(p)
  }

  lemma BuiltEntryValid(id: string, index: nat, path: string, prior: map<string, string>, next: map<string, string>)
    requires ManagedPaths(prior) && ManagedPaths(next) && (path in prior || path in next)
    ensures ValidEntry(id, EntryFor(id, index, path, prior, next), index, false)
    ensures path != CONFIG_PATH
  {
    hide QuarantineName, TombstoneName, Split, IsManagedRuntimePath;
    ManagedPathOutsideState(path);
    ConfigIsNotManaged();
  }

  lemma BuiltConfigValid(id: string, index: nat, snapshot: Option<string>, data: string)
    ensures ValidEntry(id, ConfigEntryFor(id, index, snapshot, data), index, true)
  {
    hide QuarantineName, TombstoneName, Split;
    ConfigPathParts();
    hide IsRelativePath;
  }

  lemma BuiltEntries(id: string, j: TransactionJournal, paths: seq<string>,
                     prior: map<string, string>, next: map<string, string>, snapshot: Option<string>, data: string)
    requires ManagedPaths(prior) && ManagedPaths(next)
    requires forall p :: p in paths ==> p in prior || p in next
    requires IsJournalFor(j, id, paths, prior, next, snapshot, data)
    ensures forall i :: 0 <= i < |paths| ==>
      AllEntries(j)[i] == j.entries[i] == EntryFor(id, i, paths[i], prior, next) &&
        ValidEntry(id, j.entries[i], i, false)
    ensures forall i :: 0 <= i < |paths| ==> j.entries[i].relativePath == paths[i] != CONFIG_PATH
    ensures j.config.Some? ==>
      ValidEntry(id, j.config.value, |paths|, true) && j.config.value.relativePath == CONFIG_PATH
  {
    hide ValidEntry, ManagedPaths, QuarantineName, TombstoneName;
    forall i | 0 <= i < |paths|
      ensures ValidEntry(id, j.entries[i], i, false) && paths[i] != CONFIG_PATH
    {
      assert paths[i] in paths;
      BuiltEntryValid(id, i, paths[i], prior, next);
    }
    BuiltConfigValid(id, |paths|, snapshot, data);
  }

  lemma BuiltDistinct(j: TransactionJournal, paths: seq<string>)
    requires Distinct(paths) && |j.entries| == |paths|
    requires forall i :: 0 <= i < |paths| ==> j.entries[i].relativePath == paths[i] != CONFIG_PATH
    requires j.config.Some? ==> j.config.value.relativePath == CONFIG_PATH
    ensures DistinctPaths(AllEntries(j))
  {
  }

  lemma BuiltDifference(id: string, j: TransactionJournal, paths: seq<string>,
                        prior: map<string, string>, next: map<string, string>, snapshot: Option<string>, data: string)
    requires IsJournalFor(j, id, paths, prior, next, snapshot, data)
    requires forall p :: p in paths <==> p in prior || p in next
    requires forall i :: 0 <= i < |paths| ==> paths[i] != CONFIG_PATH
    ensures JournalOf(j, prior, next)
  {
    hide QuarantineName, TombstoneName;
    forall p | p in prior || p in next
      ensures HasEntry(j.entries, p)
    {
      var i :| 0 <= i < |paths| && paths[i] == p;
      assert j.entries[i].relativePath == p;
    }
  }

  /**
   * The journal Apply builds from two valid inventories and the configuration always passes
   * validation, and is the difference of the inventories.
   */
  lemma BuiltJournalAccepted(s: State, record: GenerationRecord, j: TransactionJournal, paths: seq<string>,
                             prior: map<string, string>, next: map<string, string>, snapshot: Option<string>,
                             data: string)
    requires IsName(record.id) && record.status.CandidateStatus? && !j.phase.OtherPhase?
    requires ManagedPaths(prior) && ManagedPaths(next)
    requires Distinct(paths) && forall p :: p in paths <==> p in prior || p in next
    requires IsJournalFor(j, record.id, paths, prior, next, snapshot, data)
    ensures ValidTransactionState(s.(candidate := Some(record), transaction := Some(j)))
    ensures JournalOf(j, prior, next)
  {
    hide IsName, ManagedPaths, DistinctPaths, Distinct, JournalOf, ValidEntry, EntryFor, ConfigEntryFor;
    BuiltEntries(record.id, j, paths, prior, next, snapshot, data);
    BuiltDistinct(j, paths);
    BuiltDifference(record.id, j, paths, prior, next, snapshot, data);
    hide IsJournalFor;
    AcceptedIs(s, record, j);
  }

  lemma AcceptedIs(s: State, record: GenerationRecord, j: TransactionJournal)
    requires IsName(record.id) && record.status.CandidateStatus? && !j.phase.OtherPhase? && record.id == j.generationID
    requires forall i :: 0 <= i < |j.entries| ==>
      AllEntries(j)[i] == j.entries[i] && ValidEntry(j.generationID, j.entries[i], i, false)
    requires j.config.Some? ==> ValidEntry(j.generationID, j.config.value, |j.entries|, true)
    requires DistinctPaths(AllEntries(j))
    ensures ValidTransactionState(s.(candidate := Some(record), transaction := Some(j)))
  {
    hide IsName, ValidEntry, DistinctPaths;
  }

  // ---- One entry ----

  /** Only the places of entry `e` changed; `still` says nothing else could. */
  ghost predicate OnlyThis(before: Machine, after: Machine, e: JournalEntry, still: bool) {
    && after == before.(live := after.live, artifacts := after.artifacts, proc := after.proc)
    && (after.proc == before.proc || after.proc.Recovering?)
    && (forall a :: a != e.quarantinePath && a != e.tombstonePath ==>
         Get(after.artifacts, a) == Get(before.artifacts, a))
    && (still ==> forall p :: p != e.relativePath ==> Get(after.live, p) == Get(before.live, p))
  }

  lemma OnlyThisTransitive(a: Machine, b: Machine, c: Machine, e: JournalEntry, q: bool, r: bool)
    requires OnlyThis(a, b, e, q) && OnlyThis(b, c, e, r)
    ensures OnlyThis(a, c, e, q && r)
  {
  }

  lemma DriftOnlyThis(before: Machine, after: Machine, e: JournalEntry, quiet: bool)
    requires Drifted(before, after, quiet)
    ensures OnlyThis(before, after, e, quiet && before.game.None?)
    ensures quiet && before.game.None? ==> after == before
  {
  }

  lemma ViewOnlyThis(m: Machine, e: JournalEntry, v: View, proc: Proc)
    requires proc == m.proc || proc.Recovering?
    ensures OnlyThis(m, WithView(m, e, v).(proc := proc), e, true)
  {
  }

  lemma EndedOnlyThis(before: Machine, index: nat, move: Move, after: Machine, quiet: bool)
    requires index < |Entries(before)| && Ended(before, MoveFile(index, move), after, quiet)
    ensures OnlyThis(before, after, Entries(before)[index], quiet && before.game.None?)
  {
    var e := Entries(before)[index];
    var moved, torn := Step(before, MoveFile(index, move)), Step(before, TearFile(index));
    ViewOnlyThis(before, e, After(e, ViewAt(before, e), move), before.proc);
    ViewOnlyThis(before, e, View(Bytes(e.original), Bytes(e.original), ViewAt(before, e).tombstone), Recovering);
    hide OnlyThis, ViewAt, After, Drifted;
    if Drifted(before, after, quiet) {
      DriftOnlyThis(before, after, e, quiet);
    } else if Drifted(moved, after, quiet) {
      DriftOnlyThis(moved, after, e, quiet);
      OnlyThisTransitive(before, moved, after, e, true, quiet && before.game.None?);
    } else {
      DriftOnlyThis(torn, after, e, quiet);
      OnlyThisTransitive(before, torn, after, e, true, quiet && before.game.None?);
    }
  }

  // ---- Outside edits ----

  /** Where the edit put something else than the file that belonged there, it is still there. */
  ghost predicate EditStays(edit: Edit, live: map<string, string>, prior: map<string, string>) {
    forall p :: p != CONFIG_PATH && Get(edit.after, p) != Get(edit.before, p) && Get(edit.after, p) != Get(prior, p) ==>
      Get(live, p) == Get(edit.after, p)
  }

  /**
   * Unless something fails, an earlier edit that was in place stays, and so does the only one since, on
   * files that were as they should be.
   */
  ghost predicate KeepsEdit(before: Scene, after: Scene, prior: map<string, string>, still: bool) {
    && after.quiet == before.quiet && after.faults <= before.faults && after.edits <= before.edits
    && (after.faults == before.faults && after.quiet ==>
          && (after.edits == before.edits ==>
                after.edit == before.edit
                && (EditStays(before.edit, before.live, prior) ==> EditStays(after.edit, after.live, prior)))
          && (after.edits + 1 == before.edits && still ==> EditStays(after.edit, after.live, prior)))
  }

  lemma KeepsEditTransitive(a: Scene, b: Scene, c: Scene, prior: map<string, string>, q: bool, r: bool)
    requires KeepsEdit(a, b, prior, q) && KeepsEdit(b, c, prior, r)
    requires q && b.quiet && b.edits == a.edits ==> r
    ensures KeepsEdit(a, c, prior, q)
  {
    hide EditStays;
  }

  lemma NothingEdited(s: Scene, prior: map<string, string>, still: bool)
    ensures KeepsEdit(s, s, prior, still)
  {
    hide EditStays;
  }

  /** An operation that touches no live file. */
  lemma UntouchedKeepsEdit(before: Scene, after: Scene, prior: map<string, string>, still: bool)
    requires EditedLast(before, after, before.live)
    ensures KeepsEdit(before, after, prior, still)
  {
  }

  /** The swap of one file: moved aside, if it was what belonged there, and another put in its place if that is free. */
  lemma EntryKeepsEdit(a: Scene, b: Scene, c: Scene, p: string, installed: map<string, string>,
                       prior: map<string, string>)
    requires p == CONFIG_PATH || Get(a.live, p) == Get(prior, p)
    requires EditedLast(a, b, a.live - {p}) && EditedLast(b, c, installed)
    requires forall q :: q != p || p in b.live ==> Get(installed, q) == Get(b.live, q)
    ensures KeepsEdit(a, c, prior, true)
  {
  }

  /** The same of a path of the inventories; `staged` is what was put there. */
  lemma EntrySwapped(a: Scene, b: Scene, c: Scene, p: string, expected: Option<string>, staged: Option<string>,
                     prior: map<string, string>, still: bool)
    requires p == CONFIG_PATH || Get(prior, p) == expected
    requires if expected.None? then b == a else Get(a.live, p) == expected && EditedLast(a, b, a.live - {p})
    requires c.faults == a.faults && staged.Some? ==> p !in b.live
    requires EditedLast(b, c, Published(b.live, p, staged))
    ensures KeepsEdit(a, c, prior, still)
  {
    if c.faults == a.faults {
      if expected.Some? || p !in a.live {
        assert p !in a.live ==> a.live - {p} == a.live;
        EntryKeepsEdit(a, b, c, p, Published(b.live, p, staged), prior);
      } else {
        UntouchedKeepsEdit(a, c, prior, still);
      }
    }
  }

  /** The live files with something new at `p`, or as they were. */
  function Published(live: map<string, string>, p: string, staged: Option<string>): map<string, string> {
    if staged.Some? then live[p := staged.value] else live
  }

  /** Apply is at work on the entry at `index`, whose artifact places are `quarantine` and empty. */
  ghost predicate AtWork(m: Machine, index: nat, e: JournalEntry, quarantine: Option<string>) {
    && ModeOf(m).ApplyMode? && index < |Entries(m)| && Entries(m)[index] == e
    && Get(m.artifacts, e.quarantinePath) == quarantine && e.tombstonePath !in m.artifacts
  }

  lemma QuarantinePermitted(m: Machine, index: nat, e: JournalEntry)
    requires AtWork(m, index, e, None) && e.existed && e.relativePath in m.live
    ensures Enabled(m, MoveFile(index, Quarantine))
    ensures Get(m.live, e.relativePath) == Bytes(e.original) ==> Undisturbed(m, MoveFile(index, Quarantine))
  {
  }

  lemma RestorePermitted(m: Machine, index: nat, e: JournalEntry)
    requires ModeOf(m).ApplyMode? && index < |Entries(m)| && Entries(m)[index] == e
    requires e.existed && e.quarantinePath in m.artifacts && e.relativePath !in m.live
    ensures Enabled(m, MoveFile(index, Restore)) && Undisturbed(m, MoveFile(index, Restore))
  {
  }

  lemma InstallPermitted(m: Machine, index: nat, e: JournalEntry)
    requires AtWork(m, index, e, Bytes(e.original)) && e.installed.ShaOf? && e.relativePath !in m.live
    ensures Enabled(m, MoveFile(index, Install)) && Undisturbed(m, MoveFile(index, Install))
  {
  }

  lemma QuarantinedIs(m: Machine, index: nat, e: JournalEntry, w: Machine, quiet: bool)
    requires AtWork(m, index, e, None) && e.quarantinePath != e.tombstonePath && e.relativePath in m.live
    requires Drifted(Step(m, MoveFile(index, Quarantine)), w, quiet)
    ensures AtWork(w, index, e, Some(m.live[e.relativePath]))
    ensures quiet && m.game.None? ==> e.relativePath !in w.live
  {
  }

  /** Neither others nor the game write the file. */
  predicate HandsOff(m: Machine, e: JournalEntry) {
    m.game.None? || e.relativePath != CONFIG_PATH
  }

  /** Unless something failed or an outside edit came, `content` is live again, and not in quarantine. */
  predicate BackInPlace(before: Scene, after: Scene, m: Machine, e: JournalEntry, content: Option<string>) {
    && after.faults <= before.faults && after.edits <= before.edits && after.quiet == before.quiet
    && (after.faults == before.faults && after.edits == before.edits && HandsOff(m, e) ==>
          && Get(m.live, e.relativePath) == content && after.edit == before.edit
          && e.quarantinePath !in m.artifacts && e.tombstonePath !in m.artifacts)
  }

  /**
   * quarantineManagedFile: the current file is moved aside and only then compared; a different
   * one is moved back if its place is still free.
   */
  method QuarantineManagedFile(d: Disk, e: JournalEntry, ghost index: nat, expected: string, ghost still: bool)
      returns (ok: bool)
    requires d.Valid() && AtWork(d.M(), index, e, None) && e.existed && e.original == ShaOf(expected)
    requires still ==> d.game.None? && Get(d.live, e.relativePath) == Some(expected)
    requires !d.outside ==> still
    modifies d
    ensures d.Valid() && d.faults <= old(d.faults) && d.edits <= old(d.edits)
    ensures OnlyThis(old(d.M()), d.M(), e, d.edits == old(d.edits) && d.game.None?) && d.game == old(d.game)
    ensures ok ==> AtWork(d.M(), index, e, Some(expected)) && Get(old(d.live), e.relativePath) == Some(expected)
    ensures ok && still && d.edits == old(d.edits) ==> e.relativePath !in d.live
    ensures !ok && still ==> d.faults < old(d.faults)
    ensures if ok then EditedLast(old(d.Around()), d.Around(), old(d.live) - {e.relativePath})
      else BackInPlace(old(d.Around()), d.Around(), d.M(), e, Get(old(d.live), e.relativePath))
  {
    hide Grounded, Enabled, Undisturbed;
    DiskSeparates(d, index);
    ghost var m := d.M();
    if e.relativePath in d.live {
      QuarantinePermitted(m, index, e);
    }
    var moved := d.MoveAside(e, index, false);
    ghost var w, edits, s := d.M(), d.edits, d.Around();
    EndedOnlyThis(m, index, Quarantine, w, edits == old(d.edits));
    if !moved {
      if d.faults == old(d.faults) && edits == old(d.edits) && HandsOff(m, e) {
        DriftAt(m, w, e.relativePath);
      }
      return false;
    }
    QuarantinedIs(m, index, e, w, edits == old(d.edits));
    MovedAsideScene(m, index, e);
    if edits == old(d.edits) && HandsOff(m, e) {
      DriftAt(Step(m, MoveFile(index, Quarantine)), w, e.relativePath);
    }
    assert d.faults == old(d.faults) && edits == old(d.edits) ==> d.edit == old(d.edit);
    hide AtWork, OnlyThis, Step, Drifted, EditedLast;
    ok := CheckDisplaced(d, e, index, m.live[e.relativePath], expected);
    OnlyThisTransitive(m, w, d.M(), e, edits == old(d.edits) && d.game.None?, d.edits == edits && d.game.None?);
  }

  lemma DriftAt(before: Machine, after: Machine, p: string)
    requires Drifted(before, after, true) && (before.game.None? || p != CONFIG_PATH)
    ensures Get(after.live, p) == Get(before.live, p) && after.artifacts == before.artifacts
  {
    if p != CONFIG_PATH {
      assert Get(before.live - {CONFIG_PATH}, p) == Get(after.live - {CONFIG_PATH}, p);
    }
  }

  lemma RestoredIs(m: Machine, index: nat, e: JournalEntry, displaced: string)
    requires AtWork(m, index, e, Some(displaced)) && e.quarantinePath != e.tombstonePath
    ensures var w := Step(m, MoveFile(index, Restore));
      && Get(w.live, e.relativePath) == Some(displaced) && w.game == m.game
      && e.quarantinePath !in w.artifacts && e.tombstonePath !in w.artifacts
  {
  }

  /** The comparison of what was moved aside, and the way back. */
  method CheckDisplaced(d: Disk, e: JournalEntry, ghost index: nat, ghost displaced: string, expected: string)
      returns (ok: bool)
    requires d.Valid() && AtWork(d.M(), index, e, Some(displaced)) && e.existed
    modifies d
    ensures d.Valid() && d.faults <= old(d.faults) && d.edits <= old(d.edits)
    ensures OnlyThis(old(d.M()), d.M(), e, d.edits == old(d.edits) && d.game.None?) && d.game == old(d.game)
    ensures ok ==> displaced == expected && d.M() == old(d.M()) && d.Around() == old(d.Around())
    ensures !ok && displaced == expected ==> d.faults < old(d.faults)
    ensures !ok && e.relativePath !in old(d.live) ==>
      BackInPlace(old(d.Around()), d.Around(), d.M(), e, Some(displaced))
  {
    hide Grounded, Enabled, Undisturbed;
    DiskSeparates(d, index);
    ghost var m := d.M();
    RestoredIs(m, index, e, displaced);
    var inspected, found := d.InspectArtifact(e.quarantinePath);
    if inspected && found == Some(expected) {
      DriftOnlyThis(m, m, e, true);
      return true;
    }
    if e.quarantinePath in d.artifacts && e.relativePath !in d.live {
      RestorePermitted(m, index, e);
    }
    var restored := d.MoveBack(e, index);
    EndedOnlyThis(m, index, Restore, d.M(), d.edits == old(d.edits));
    if restored && d.edits == old(d.edits) && HandsOff(m, e) {
      DriftAt(Step(m, MoveFile(index, Restore)), d.M(), e.relativePath);
    }
    return false;
  }

  lemma InstalledIs(m: Machine, index: nat, e: JournalEntry, content: string, w: Machine, quiet: bool)
    requires AtWork(m, index, e, Bytes(e.original)) && e.installed == ShaOf(content)
    requires Drifted(Step(m, MoveFile(index, Install)), w, quiet)
    ensures AtWork(w, index, e, Bytes(e.original))
    ensures quiet && m.game.None? ==> Get(w.live, e.relativePath) == Some(content)
  {
  }

  /** The new bytes appear at a place that must be free. */
  method InstallStaged(d: Disk, e: JournalEntry, ghost index: nat, content: string, ghost still: bool)
      returns (ok: bool)
    requires d.Valid() && AtWork(d.M(), index, e, Bytes(e.original)) && e.installed == ShaOf(content)
    requires still ==> d.game.None? && e.relativePath !in d.live
    modifies d
    ensures d.Valid() && d.faults <= old(d.faults) && d.edits <= old(d.edits)
    ensures OnlyThis(old(d.M()), d.M(), e, d.edits == old(d.edits) && d.game.None?) && d.game == old(d.game)
    ensures ok ==> AtWork(d.M(), index, e, Bytes(e.original))
    ensures ok && still && d.edits == old(d.edits) ==> Get(d.live, e.relativePath) == Some(content)
    ensures !ok && still && d.edits == old(d.edits) ==> d.faults < old(d.faults)
    ensures d.faults == old(d.faults) ==> (ok <==> e.relativePath !in old(d.live)) && d.artifacts == old(d.artifacts)
    ensures EditedLast(old(d.Around()), d.Around(),
                       Published(old(d.live), e.relativePath, if ok then Some(content) else None))
  {
    hide Grounded, Enabled, Undisturbed;
    ghost var m := d.M();
    if e.relativePath !in d.live {
      InstallPermitted(m, index, e);
    }
    ok := d.Publish(e, index, content);
    EndedOnlyThis(m, index, Install, d.M(), d.edits == old(d.edits));
    if ok {
      InstalledIs(m, index, e, content, d.M(), d.edits == old(d.edits));
    }
    hide Step, Drifted;
  }

  lemma AtWorkDrift(m: Machine, index: nat, e: JournalEntry, q: Option<string>, w: Machine, quiet: bool)
    requires AtWork(m, index, e, q) && Drifted(m, w, quiet)
    ensures AtWork(w, index, e, q) && OnlyThis(m, w, e, quiet && m.game.None?) && w.artifacts == m.artifacts
    ensures quiet && m.game.None? ==> w == m
  {
  }

  /** The staged file is read again and compared with its manifest just before it is installed. */
  method ReadStaged(d: Disk, id: string, path: string, expected: string) returns (ok: bool)
    requires d.Valid() && id in d.generations
    modifies d`faults
    ensures d.Valid() && d.M() == old(d.M()) && d.faults <= old(d.faults) && d.edits == old(d.edits)
    ensures ok ==> d.faults == old(d.faults)
    ensures !ok && Get(d.generations[id].overlay, path) == Some(expected) ==> d.faults < old(d.faults)
  {
    hide Grounded;
    var fault := d.NextFault();
    return fault.NoFault? && Get(d.generations[id].overlay, path) == Some(expected);
  }

  /** Nothing failed, and there was no outside edit, or a single one on files that were as they should be. */
  predicate OneEdit(before: Scene, after: Scene, still: bool) {
    && after.faults == before.faults && after.quiet
    && (after.edits == before.edits || (after.edits + 1 == before.edits && still))
  }

  lemma OneEditSince(a: Scene, s: Scene, c: Scene, still: bool, q: bool)
    requires c.faults <= s.faults <= a.faults && c.edits <= s.edits <= a.edits
    requires q <==> still && s.edits == a.edits
    ensures OneEdit(a, c, still) ==> OneEdit(s, c, q)
  {
  }

  /** The artifact places of the entry hold the original or nothing. */
  predicate OriginalOnly(m: Machine, e: JournalEntry) {
    && (Get(m.artifacts, e.quarantinePath) == None || Get(m.artifacts, e.quarantinePath) == Bytes(e.original))
    && e.tombstonePath !in m.artifacts
  }

  /** A file that was not moved aside, or was put back. */
  lemma QuarantineRefused(a: Scene, b: Scene, m: Machine, w: Machine, e: JournalEntry, prior: map<string, string>,
                          still: bool)
    requires BackInPlace(a, b, w, e, Get(m.live, e.relativePath))
    requires a.live == m.live && b.live == w.live && (b.quiet <==> w.game.None?)
    requires OnlyThis(m, w, e, b.edits == a.edits && w.game.None?)
    requires still ==> b.faults < a.faults
    ensures KeepsEdit(a, b, prior, still)
    ensures OneEdit(a, b, still) ==> OriginalOnly(w, e)
  {
  }

  lemma AtWorkIs(m: Machine, index: nat, e: JournalEntry, q: Option<string>)
    requires AtWork(m, index, e, q)
    ensures Get(m.artifacts, e.quarantinePath) == q && e.tombstonePath !in m.artifacts
    ensures q == None || q == Bytes(e.original) ==> OriginalOnly(m, e)
  {
  }

  lemma SameArtifacts(m: Machine, w: Machine, e: JournalEntry)
    requires OriginalOnly(m, e) && w.artifacts == m.artifacts
    ensures OriginalOnly(w, e)
  {
  }

  /** What moving a file aside left of the live files. */
  lemma MovedAsideScene(m: Machine, index: nat, e: JournalEntry)
    requires index < |Entries(m)| && Entries(m)[index] == e
    ensures Step(m, MoveFile(index, Quarantine)).live == m.live - {e.relativePath}
  {
  }

  /** The new file in the place of the old one, or the check that nothing is there. */
  method FillPlace(d: Disk, id: string, e: JournalEntry, ghost index: nat, staged: Option<string>, ghost still: bool)
      returns (ok: bool)
    requires d.Valid() && AtWork(d.M(), index, e, Bytes(e.original)) && Bytes(e.installed) == staged
    requires id in d.generations && (staged.Some? ==> Get(d.generations[id].overlay, e.relativePath) == staged)
    requires still ==> d.game.None? && e.relativePath !in d.live
    modifies d
    ensures d.Valid() && d.faults <= old(d.faults) && d.edits <= old(d.edits)
    ensures OnlyThis(old(d.M()), d.M(), e, d.edits == old(d.edits) && d.game.None?) && d.game == old(d.game)
    ensures ok ==> AtWork(d.M(), index, e, Bytes(e.original))
    ensures ok && still && d.edits == old(d.edits) ==> Get(d.live, e.relativePath) == staged
    ensures !ok && still && d.edits == old(d.edits) ==> d.faults < old(d.faults)
    ensures ok && staged.None? ==> e.relativePath !in old(d.live)
    ensures d.faults == old(d.faults) ==>
      d.artifacts == old(d.artifacts) && (ok && staged.Some? ==> e.relativePath !in old(d.live))
    ensures EditedLast(old(d.Around()), d.Around(),
                       Published(old(d.live), e.relativePath, if ok then staged else None))
  {
    hide Grounded, AtWork, OnlyThis, Drifted;
    ghost var m := d.M();
    DriftOnlyThis(m, m, e, true);
    if staged.Some? {
      ok := ReadStaged(d, id, e.relativePath, staged.value);
      if ok {
        ok := InstallStaged(d, e, index, staged.value, still);
      }
    } else {
      var found;
      ok, found := d.InspectLive(e.relativePath);
      AtWorkDrift(m, index, e, Bytes(e.original), d.M(), d.edits == old(d.edits));
      ok := ok && found.None?;
    }
  }

  /** One path of the swap: the old file aside, then the new one in its place, or nothing there. */
  method ApplyEntry(d: Disk, id: string, e: JournalEntry, ghost index: nat, expected: Option<string>,
                    staged: Option<string>,
                    ghost prior: map<string, string>, ghost still: bool) returns (ok: bool)
    requires d.Valid() && AtWork(d.M(), index, e, None) && Get(prior, e.relativePath) == expected
    requires id in d.generations && (staged.Some? ==> Get(d.generations[id].overlay, e.relativePath) == staged)
    requires e.existed == expected.Some? && Bytes(e.original) == expected && Bytes(e.installed) == staged
    requires still ==> d.game.None? && Get(d.live, e.relativePath) == expected
    requires !d.outside ==> still
    modifies d
    ensures d.Valid() && d.faults <= old(d.faults) && d.edits <= old(d.edits)
    ensures OnlyThis(old(d.M()), d.M(), e, d.edits == old(d.edits) && d.game.None?) && d.game == old(d.game)
    ensures ok ==> AtWork(d.M(), index, e, expected)
    ensures ok && still && d.edits == old(d.edits) ==> Get(d.live, e.relativePath) == staged
    ensures !ok && still && d.edits == old(d.edits) ==> d.faults < old(d.faults)
    ensures KeepsEdit(old(d.Around()), d.Around(), prior, still)
    ensures !ok && OneEdit(old(d.Around()), d.Around(), still) ==> OriginalOnly(d.M(), e)
  {
    hide Grounded, AtWork, OnlyThis, Drifted, EditedLast, KeepsEdit, BackInPlace, OriginalOnly;
    ghost var m, s := d.M(), d.Around();
    DriftOnlyThis(m, m, e, true);
    NothingEdited(s, prior, still);
    AtWorkIs(m, index, e, None);
    if expected.Some? {
      ok := QuarantineManagedFile(d, e, index, expected.value, still);
      if !ok {
        QuarantineRefused(s, d.Around(), m, d.M(), e, prior, still);
        return false;
      }
    }
    ghost var w, edits, r := d.M(), d.edits, d.Around();
    AtWorkIs(w, index, e, expected);
    ghost var q := still && edits == old(d.edits);
    SameGenerations(m, w, e, edits == old(d.edits) && d.game.None?);
    ok := FillPlace(d, id, e, index, staged, q);
    OnlyThisTransitive(m, w, d.M(), e, edits == old(d.edits) && d.game.None?, d.edits == edits && d.game.None?);
    EntrySwapped(s, r, d.Around(), e.relativePath, expected, if ok then staged else None, prior, still);
    if d.faults == old(d.faults) {
      SameArtifacts(w, d.M(), e);
    }
  }

  lemma SameGenerations(m: Machine, w: Machine, e: JournalEntry, still: bool)
    requires OnlyThis(m, w, e, still)
    ensures w.generations == m.generations
  {
  }

  /** The configuration: the current one aside, then the edited one in its place. */
  method ApplyConfig(d: Disk, e: JournalEntry, ghost index: nat, expected: Option<string>, data: string,
                     ghost prior: map<string, string>, ghost still: bool)
      returns (ok: bool)
    requires d.Valid() && AtWork(d.M(), index, e, None) && e.relativePath == CONFIG_PATH
    requires e.existed == expected.Some? && Bytes(e.original) == expected && e.installed == ShaOf(data)
    requires still ==> d.game.None? && Get(d.live, e.relativePath) == expected
    requires !d.outside ==> still
    modifies d
    ensures d.Valid() && d.faults <= old(d.faults) && d.edits <= old(d.edits)
    ensures OnlyThis(old(d.M()), d.M(), e, d.edits == old(d.edits) && d.game.None?) && d.game == old(d.game)
    ensures ok ==> AtWork(d.M(), index, e, expected)
    ensures ok && still && d.edits == old(d.edits) ==> Get(d.live, e.relativePath) == Some(data)
    ensures !ok && still && d.edits == old(d.edits) ==> d.faults < old(d.faults)
    ensures KeepsEdit(old(d.Around()), d.Around(), prior, still)
    ensures !ok && OneEdit(old(d.Around()), d.Around(), still) ==> OriginalOnly(d.M(), e)
  {
    hide Grounded, AtWork, OnlyThis, Drifted, EditedLast, KeepsEdit, BackInPlace, OriginalOnly;
    ghost var m, s := d.M(), d.Around();
    DriftOnlyThis(m, m, e, true);
    AtWorkIs(m, index, e, None);
    if expected.Some? {
      ok := QuarantineManagedFile(d, e, index, expected.value, still);
      if !ok {
        QuarantineRefused(s, d.Around(), m, d.M(), e, prior, still);
        return false;
      }
    }
    ghost var w, edits, r := d.M(), d.edits, d.Around();
    AtWorkIs(w, index, e, expected);
    ok := InstallStaged(d, e, index, data, still && edits == old(d.edits));
    OnlyThisTransitive(m, w, d.M(), e, edits == old(d.edits) && d.game.None?, d.edits == edits && d.game.None?);
    EntrySwapped(s, r, d.Around(), e.relativePath, expected, if ok then Some(data) else None, prior, still);
    if d.faults == old(d.faults) {
      SameArtifacts(w, d.M(), e);
    }
  }

  // ---- The loop ----

  /** The first `index` entries of the journal are done, the rest are untouched. */
  ghost predicate AppliedUpTo(m0: Machine, m: Machine, index: nat, still: bool)
    requires index <= |Entries(m0)|
  {
    && m == m0.(live := m.live, artifacts := m.artifacts)
    && (forall i :: 0 <= i < |Entries(m0)| ==>
          && Get(m.artifacts, Entries(m0)[i].quarantinePath) ==
               (if i < index then Bytes(Entries(m0)[i].original) else None)
          && Entries(m0)[i].tombstonePath !in m.artifacts)
    && (still ==> LiveApplied(m0, m, index))
  }

  ghost predicate LiveApplied(m0: Machine, m: Machine, index: nat)
    requires index <= |Entries(m0)|
  {
    && (forall i :: 0 <= i < index ==> Get(m.live, Entries(m0)[i].relativePath) == Bytes(Entries(m0)[i].installed))
    && (forall p :: !HasEntry(Entries(m0)[..index], p) ==> Get(m.live, p) == Get(m0.live, p))
  }

  lemma OneMoreApplied(m0: Machine, m: Machine, w: Machine, index: nat, q: bool, still: bool)
    requires index < |Entries(m0)| && AppliedUpTo(m0, m, index, q) && Separated(Entries(m0))
    requires var e := Entries(m0)[index];
      && OnlyThis(m, w, e, still) && AtWork(w, index, e, Bytes(e.original))
      && (q && still ==> Get(w.live, e.relativePath) == Bytes(e.installed))
    requires ModeOf(m0).ApplyMode?
    ensures AppliedUpTo(m0, w, index + 1, q && still)
  {
    var all := Entries(m0);
    if q && still {
      OneMoreLiveApplied(m0, m, w, index);
    }
    hide LiveApplied, HasEntry;
    forall i | 0 <= i < |all| && i != index
      ensures Get(w.artifacts, all[i].quarantinePath) == Get(m.artifacts, all[i].quarantinePath)
      ensures Get(w.artifacts, all[i].tombstonePath) == Get(m.artifacts, all[i].tombstonePath)
    {
      assert all[index].quarantinePath != all[i].tombstonePath && all[index].tombstonePath != all[i].quarantinePath;
    }
  }

  lemma OneMoreLiveApplied(m0: Machine, m: Machine, w: Machine, index: nat)
    requires index < |Entries(m0)| && LiveApplied(m0, m, index) && Separated(Entries(m0))
    requires var e := Entries(m0)[index]; OnlyThis(m, w, e, true) && Get(w.live, e.relativePath) == Bytes(e.installed)
    ensures LiveApplied(m0, w, index + 1)
  {
    var all := Entries(m0);
    forall p | !HasEntry(all[..index + 1], p)
      ensures Get(w.live, p) == Get(m0.live, p)
    {
      assert all[..index + 1][index].relativePath != p;
      MoreEntries(all, index, p);
    }
  }

  /** What the loop finds at the next entry. */
  lemma NextToApply(m0: Machine, m: Machine, index: nat, still: bool)
    requires index < |Entries(m0)| && AppliedUpTo(m0, m, index, still) && Separated(Entries(m0)) &&
      ModeOf(m0).ApplyMode?
    ensures AtWork(m, index, Entries(m0)[index], None)
    ensures still ==> Get(m.live, Entries(m0)[index].relativePath) == Get(m0.live, Entries(m0)[index].relativePath)
    ensures m == m0.(live := m.live, artifacts := m.artifacts)
  {
    var all := Entries(m0);
    assert still ==> !HasEntry(all[..index], all[index].relativePath);
  }

  /** The journal is in force, and nothing of it has been done. */
  ghost predicate Begun(m0: Machine, id: string, prior: map<string, string>, next: map<string, string>, still: bool) {
    && ModeOf(m0).ApplyMode? && Separated(Entries(m0))
    && id in m0.generations && m0.generations[id].overlay == next
    && (forall i :: 0 <= i < |Entries(m0)| ==>
          var e := Entries(m0)[i];
          && e.quarantinePath !in m0.artifacts && e.tombstonePath !in m0.artifacts
          && e.existed == Bytes(e.original).Some?
          && (still ==> Get(m0.live, e.relativePath) == Bytes(e.original)))
    && (forall i :: 0 <= i < |m0.state.transaction.value.entries| ==>
          var e := m0.state.transaction.value.entries[i];
          && e == Entries(m0)[i]
          && Bytes(e.original) == Get(prior, e.relativePath) && Bytes(e.installed) == Get(next, e.relativePath))
    && (still ==> m0.game.None?)
  }

  lemma BegunUntouched(m0: Machine, id: string, prior: map<string, string>, next: map<string, string>, still: bool)
    requires Begun(m0, id, prior, next, still)
    ensures AppliedUpTo(m0, m0, 0, still)
  {
  }

  lemma BegunEntry(m0: Machine, id: string, prior: map<string, string>, next: map<string, string>, still: bool,
                   index: nat)
    requires Begun(m0, id, prior, next, still) && index < |m0.state.transaction.value.entries|
    ensures var e := m0.state.transaction.value.entries[index];
      && e == Entries(m0)[index] && e.existed == Get(prior, e.relativePath).Some?
      && Bytes(e.original) == Get(prior, e.relativePath) && Bytes(e.installed) == Get(next, e.relativePath)
      && (still ==> Get(m0.live, e.relativePath) == Get(prior, e.relativePath))
    ensures ModeOf(m0).ApplyMode? && Separated(Entries(m0)) && id in m0.generations &&
      m0.generations[id].overlay == next
    ensures still ==> m0.game.None?
  {
    hide Separated;
  }

  /** Quarantine holds nothing but originals, and no tombstone is about. */
  predicate NothingForeign(m: Machine) {
    forall i :: 0 <= i < |Entries(m)| ==> OriginalOnly(m, Entries(m)[i])
  }

  lemma NoJournalNothingForeign(m: Machine)
    requires m.state.transaction.None?
    ensures NothingForeign(m)
  {
  }

  /** The failed swap of the entry at `index` left nothing foreign. */
  lemma OneForeignFree(m0: Machine, m: Machine, w: Machine, index: nat, q: bool, still: bool)
    requires index < |Entries(m0)| && AppliedUpTo(m0, m, index, q) && Separated(Entries(m0))
    requires var e := Entries(m0)[index];
      OnlyThis(m, w, e, still) && OriginalOnly(w, e)
    ensures NothingForeign(w)
  {
    var all := Entries(m0);
    hide LiveApplied, HasEntry;
    forall i | 0 <= i < |all| && i != index
      ensures Get(w.artifacts, all[i].quarantinePath) == Get(m.artifacts, all[i].quarantinePath)
      ensures Get(w.artifacts, all[i].tombstonePath) == Get(m.artifacts, all[i].tombstonePath)
    {
      assert all[index].quarantinePath != all[i].tombstonePath && all[index].tombstonePath != all[i].quarantinePath;
    }
    assert Entries(w) == all;
  }

  /** The swap of all managed files. */
  method ApplyEntries(d: Disk, id: string, prior: map<string, string>, next: map<string, string>, ghost still: bool)
      returns (ok: bool)
    requires d.Valid() && d.state.transaction.Some? && Begun(d.M(), id, prior, next, still) && (!d.outside ==> still)
    modifies d
    ensures d.Valid() && d.faults <= old(d.faults) && d.edits <= old(d.edits)
    ensures d.M() == old(d.M()).(live := d.live, artifacts := d.artifacts, proc := d.proc)
    ensures d.proc == old(d.proc) || d.proc.Recovering?
    ensures ok ==>
      AppliedUpTo(old(d.M()), d.M(), |old(d.state).transaction.value.entries|, still && d.edits == old(d.edits))
    ensures !ok && still && d.edits == old(d.edits) ==> d.faults < old(d.faults)
    ensures KeepsEdit(old(d.Around()), d.Around(), prior, still)
    ensures !ok && OneEdit(old(d.Around()), d.Around(), still) ==> NothingForeign(d.M())
  {
    hide Grounded, Begun, AppliedUpTo, OnlyThis, AtWork, Separated, KeepsEdit, NothingForeign, OneEdit, OriginalOnly;
    NothingEdited(d.Around(), prior, still);
    ghost var m0 := d.M();
    BegunUntouched(m0, id, prior, next, still);
    var entries := d.state.transaction.value.entries;
    var index := 0;
    while index < |entries|
      invariant 0 <= index <= |entries|
      invariant d.Valid() && d.faults <= old(d.faults) && d.edits <= old(d.edits)
      invariant d.M() == m0.(live := d.live, artifacts := d.artifacts)
      invariant AppliedUpTo(m0, d.M(), index, still && d.edits == old(d.edits))
      invariant KeepsEdit(old(d.Around()), d.Around(), prior, still)
    {
      var e := entries[index];
      ghost var m, edits := d.M(), d.edits;
      ghost var q := still && edits == old(d.edits);
      BegunEntry(m0, id, prior, next, still, index);
      NextToApply(m0, m, index, q);
      ghost var s := d.Around();
      ok := ApplyEntry(d, id, e, index, Get(prior, e.relativePath), Get(next, e.relativePath), prior, q);
      KeepsEditTransitive(old(d.Around()), s, d.Around(), prior, still, q);
      OnlyThisFrame(m, d.M(), e, d.edits == edits && d.game.None?);
      if !ok {
        OneEditSince(old(d.Around()), s, d.Around(), still, q);
        if OneEdit(s, d.Around(), q) {
          OneForeignFree(m0, m, d.M(), index, q, d.edits == edits && d.game.None?);
        }
        return false;
      }
      OneMoreApplied(m0, m, d.M(), index, q, d.edits == edits && d.game.None?);
      AtWorkFrame(d.M(), index, e, Get(prior, e.relativePath));
      AppliedWeaken(m0, d.M(), index + 1, q && d.edits == edits && d.game.None?, still && d.edits == old(d.edits));
      index := index + 1;
    }
    return true;
  }

  lemma AppliedWeaken(m0: Machine, m: Machine, index: nat, a: bool, b: bool)
    requires index <= |Entries(m0)| && AppliedUpTo(m0, m, index, a) && (b ==> a)
    ensures AppliedUpTo(m0, m, index, b)
  {
    hide LiveApplied;
  }

  lemma AtWorkFrame(m: Machine, index: nat, e: JournalEntry, q: Option<string>)
    requires AtWork(m, index, e, q)
    ensures m.proc.InApply?
  {
  }

  lemma OnlyThisFrame(m: Machine, w: Machine, e: JournalEntry, still: bool)
    requires OnlyThis(m, w, e, still)
    ensures w == m.(live := w.live, artifacts := w.artifacts, proc := w.proc)
    ensures w.proc == m.proc || w.proc.Recovering?
  {
  }

  // ---- Before the journal ----

  /** The managed live files are those of the prior inventory, and no new path is taken. */
  predicate InventoryMatches(live: map<string, string>, paths: seq<string>, prior: map<string, string>) {
    forall i :: 0 <= i < |paths| ==> Get(live, paths[i]) == Get(prior, paths[i])
  }

  /** The inspection of every path before anything is written. */
  method InspectInventory(d: Disk, paths: seq<string>, prior: map<string, string>) returns (ok: bool)
    requires d.Valid()
    modifies d
    ensures d.Valid() && d.faults <= old(d.faults) && d.edits <= old(d.edits)
    ensures d.M() == old(d.M()).(live := d.live)
    ensures d.edits == old(d.edits) && d.game.None? ==>
      d.live == old(d.live) && (ok ==> InventoryMatches(d.live, paths, prior))
    ensures !ok && d.edits == old(d.edits) && d.game.None? && InventoryMatches(d.live, paths, prior) ==>
      d.faults < old(d.faults)
    ensures KeepsEdit(old(d.Around()), d.Around(), prior, true)
  {
    hide Grounded, KeepsEdit, EditedLast;
    NothingEdited(d.Around(), prior, true);
    for index := 0 to |paths|
      invariant d.Valid() && d.faults <= old(d.faults) && d.edits <= old(d.edits)
      invariant d.M() == old(d.M()).(live := d.live)
      invariant KeepsEdit(old(d.Around()), d.Around(), prior, true)
      invariant d.edits == old(d.edits) && d.game.None? ==>
        d.live == old(d.live) && forall i :: 0 <= i < index ==> Get(d.live, paths[i]) == Get(prior, paths[i])
    {
      var path := paths[index];
      var found;
      ghost var s := d.Around();
      ok, found := d.InspectLive(path);
      UntouchedKeepsEdit(s, d.Around(), prior, true);
      KeepsEditTransitive(old(d.Around()), s, d.Around(), prior, true, true);
      if !ok || found != Get(prior, path) {
        return false;
      }
    }
    return true;
  }

  /** prepareConsoleConfig: the edit of the current configuration, or of the staged template if there is none. */
  method PrepareConsoleConfig(d: Disk, id: string) returns (ok: bool, snapshot: Option<string>, data: string)
    requires d.Valid() && id in d.generations
    modifies d
    ensures d.Valid() && d.faults <= old(d.faults) && d.edits <= old(d.edits)
    ensures d.M() == old(d.M()).(live := d.live)
    ensures d.edits == old(d.edits) && d.game.None? ==>
      d.live == old(d.live) && (ok ==> snapshot == Get(d.live, CONFIG_PATH))
    ensures ok ==>
      data == ConfigEdit.Disabled(if snapshot.Some? then snapshot.value else d.generations[id].configTemplate)
    ensures !ok ==> d.faults < old(d.faults)
    ensures EditedLast(old(d.Around()), d.Around(), old(d.live))
  {
    hide Grounded, ConfigEdit.Disabled;
    data := "";
    ok, snapshot := d.InspectLive(CONFIG_PATH);
    if !ok {
      return;
    }
    if snapshot.Some? {
      data := ConfigEdit.DisableConsoleLogging(snapshot.value);
      return;
    }
    ok := d.Sync();
    if ok {
      data := ConfigEdit.DisableConsoleLogging(d.generations[id].configTemplate);
    }
  }

  /** The prior inventory: that of the active generation. */
  method LoadPrior(d: Disk) returns (ok: bool, prior: map<string, string>)
    requires d.Valid()
    modifies d`faults
    ensures d.Valid() && d.M() == old(d.M()) && d.faults <= old(d.faults) && d.edits == old(d.edits)
    ensures ok ==> prior == FilesOf(d.M(), d.state.active)
    ensures !ok ==> d.faults < old(d.faults)
  {
    ActiveIsConsistent(d);
    hide Grounded, IsManagedRuntimePath, IsRelativePath;
    if d.state.active.None? {
      return true, map[];
    }
    var active := d.state.active.value;
    prior := map[];
    ok := d.Sync();
    if !ok {
      return;
    }
    if active.id !in d.generations || !IsRelativePath(active.id) || !ValidManifest(d.generations[active.id].manifest) {
      assert false;
    }
    var manifest := d.generations[active.id].manifest;
    if manifest.generationID != active.id || manifest.lockDigest != active.lockDigest {
      assert false;
    }
    prior := manifest.files;
  }

  lemma ActiveIsConsistent(d: Disk)
    requires d.Valid()
    ensures d.state.active.Some? ==> var active := d.state.active.value;
      && active.id in d.generations && IsRelativePath(active.id)
      && ValidManifest(d.generations[active.id].manifest)
      && d.generations[active.id].manifest.generationID == active.id
      && d.generations[active.id].manifest.lockDigest == active.lockDigest
  {
    LedgerNow(d);
    hide Grounded, JournalPart, CleanupOk, LockOk, ProcOk, PackageLockDigest, IsManagedRuntimePath, Split,
      IsRelativePath;
    if d.state.active.Some? {
      GenerationConsistent(d, d.state.active.value.id);
    }
  }

  // ---- The journal becomes durable ----

  /** No record names the generation and nothing is below its directory but what Stage put there. */
  predicate NeverApplied(m: Machine, id: string) {
    UnreferencedGeneration(m, id) && NoArtifactsBelow(m.artifacts, id)
  }

  function CandidateOf(staged: StagedGeneration): GenerationRecord {
    GenerationRecord(staged.record.id, staged.record.lockDigest, CandidateStatus)
  }

  function BegunState(s: State, staged: StagedGeneration, j: TransactionJournal): State {
    s.(candidate := Some(CandidateOf(staged)), transaction := Some(j))
  }

  /** What was inspected, as far as it decides the journal. */
  ghost predicate Inspected(m: Machine, staged: StagedGeneration, paths: seq<string>, prior: map<string, string>,
                            snapshot: Option<string>, data: string) {
    && StagedMatches(m.generations, staged) && NeverApplied(m, staged.record.id)
    && m.state.transaction.None? && m.state.candidate.None? && m.state.promotion.None? && !m.state.runtime.ready
    && prior == FilesOf(m, m.state.active)
    && Distinct(paths) && (forall p :: p in paths <==> p in prior || p in staged.manifest.files)
  }

  lemma FilesAreManaged(d: Disk, record: Option<GenerationRecord>)
    requires d.Valid()
    ensures ManagedPaths(FilesOf(d.M(), record))
  {
    if record.Some? && record.value.id in d.generations {
      GenerationConsistent(d, record.value.id);
    }
    hide Grounded, IsManagedRuntimePath, IsRelativePath, IsName, PackageLockDigest;
  }

  lemma BeginAccepted(d: Disk, staged: StagedGeneration, j: TransactionJournal, paths: seq<string>,
                      prior: map<string, string>,
                      snapshot: Option<string>, data: string)
    requires d.Valid() && Inspected(d.M(), staged, paths, prior, snapshot, data) && j.phase.ApplyingPhase?
    requires IsJournalFor(j, staged.record.id, paths, prior, staged.manifest.files, snapshot, data)
    ensures ValidTransactionState(BegunState(d.state, staged, j)) && JournalOf(j, prior, staged.manifest.files)
  {
    FilesAreManaged(d, d.state.active);
    GenerationConsistent(d, staged.record.id);
    FilesAreManaged(d, Some(staged.record));
    hide Grounded, ManagedPaths, IsName, ValidTransactionState, JournalOf, IsJournalFor, HasRuntimeFiles, Distinct,
      NeverApplied, ValidManifest, PackageLockDigest;
    BuiltJournalAccepted(d.state, CandidateOf(staged), j, paths, prior, staged.manifest.files, snapshot, data);
  }

  lemma BeginEnabled(m: Machine, staged: StagedGeneration, j: TransactionJournal, paths: seq<string>,
                     prior: map<string, string>,
                     snapshot: Option<string>, data: string)
    requires Inspected(m, staged, paths, prior, snapshot, data) && j.phase.ApplyingPhase? &&
      j.generationID == staged.record.id
    requires ValidTransactionState(BegunState(m.state, staged, j)) && JournalOf(j, prior, staged.manifest.files)
    ensures Enabled(m, Begin(j)) && Step(m, Begin(j)) == m.(state := BegunState(m.state, staged, j), proc := InApply)
  {
    hide ValidTransactionState, JournalOf, HasRuntimeFiles, Distinct, NoArtifactsBelow, IsName, IsReferenced;
  }

  /** What was there when it was inspected is what the journal calls the original. */
  lemma OriginalsInPlace(m: Machine, j: TransactionJournal, id: string, paths: seq<string>, prior: map<string, string>,
                         next: map<string, string>, snapshot: Option<string>, data: string)
    requires IsJournalFor(j, id, paths, prior, next, snapshot, data)
    requires InventoryMatches(m.live, paths, prior) && Get(m.live, CONFIG_PATH) == snapshot
    ensures forall i :: 0 <= i < |AllEntries(j)| ==>
      Get(m.live, AllEntries(j)[i].relativePath) == Bytes(AllEntries(j)[i].original)
  {
    hide QuarantineName, TombstoneName;
  }

  lemma BegunIs(m: Machine, staged: StagedGeneration, j: TransactionJournal, paths: seq<string>,
                prior: map<string, string>,
                snapshot: Option<string>, data: string, still: bool)
    requires IsJournalFor(j, staged.record.id, paths, prior, staged.manifest.files, snapshot, data)
    requires m.state.transaction == Some(j) && m.state.promotion.None? && m.proc.InApply? && Separated(Entries(m))
    requires StagedMatches(m.generations, staged) && m.generations[staged.record.id].overlay == staged.manifest.files
    requires forall i :: 0 <= i < |Entries(m)| ==>
      Entries(m)[i].quarantinePath !in m.artifacts && Entries(m)[i].tombstonePath !in m.artifacts
    requires still ==> m.game.None? && InventoryMatches(m.live, paths, prior) && Get(m.live, CONFIG_PATH) == snapshot
    ensures Begun(m, staged.record.id, prior, staged.manifest.files, still)
  {
    hide QuarantineName, TombstoneName, HasRuntimeFiles, Separated;
    if still {
      OriginalsInPlace(m, j, staged.record.id, paths, prior, staged.manifest.files, snapshot, data);
    }
    forall i | 0 <= i < |j.entries|
      ensures j.entries[i] == Entries(m)[i]
    {
    }
  }

  /** The first write of Apply. */
  method BeginApply(d: Disk, staged: StagedGeneration, paths: seq<string>, prior: map<string, string>,
                    snapshot: Option<string>, data: string, ghost still: bool) returns (ok: bool)
    requires d.Valid() && Inspected(d.M(), staged, paths, prior, snapshot, data)
    requires still ==> d.game.None? && InventoryMatches(d.live, paths, prior) && Get(d.live, CONFIG_PATH) == snapshot
    requires !d.outside ==> still
    modifies d
    ensures d.Valid() && d.faults <= old(d.faults) && d.edits <= old(d.edits)
    ensures d.generations == old(d.generations) && d.lock == old(d.lock) && d.game == old(d.game)
    ensures d.M() == old(d.M()).(live := d.live) || BegunOn(old(d.M()), d.M(), staged, paths, prior, snapshot, data)
    ensures d.edits == old(d.edits) && d.game.None? ==> d.live == old(d.live)
    ensures ok ==> BegunOn(old(d.M()), d.M(), staged, paths, prior, snapshot, data)
    ensures ok ==> Begun(d.M(), staged.record.id, prior, staged.manifest.files, still && d.edits == old(d.edits))
    ensures !ok ==> d.faults < old(d.faults)
    ensures EditedLast(old(d.Around()), d.Around(), old(d.live))
  {
    hide Grounded, Inspected, IsJournalFor, Enabled, Undisturbed, Step, ValidTransactionState, JournalOf, Begun,
      AllEntries;
    ghost var m0 := d.M();
    var id := staged.record.id;
    var entries := BuildEntries(id, paths, prior, staged.manifest.files);
    var config := ConfigFor(id, |paths|, snapshot, data);
    var j := TransactionJournal(id, ApplyingPhase, entries, config);
    JournalBuilt(j, id, paths, prior, staged.manifest.files, snapshot, data);
    BeginAccepted(d, staged, j, paths, prior, snapshot, data);
    BeginEnabled(m0, staged, j, paths, prior, snapshot, data);
    if still {
      OriginalsInPlace(m0, j, id, paths, prior, staged.manifest.files, snapshot, data);
      BeginUndisturbed(m0, j);
    }
    var s := BegunState(d.state, staged, j);
    var valid := ValidateTransactionState(s);
    if !valid {
      assert false;
    }
    ok := d.SaveState(s, InApply, d.backups, Begin(j));
    BegunSaved(d, m0, staged, j, paths, prior, snapshot, data, ok, still, d.edits == old(d.edits));
  }

  ghost predicate BegunOn(m0: Machine, m: Machine, staged: StagedGeneration, paths: seq<string>,
                          prior: map<string, string>,
                          snapshot: Option<string>, data: string) {
    && m.state.transaction.Some?
    && var j := m.state.transaction.value;
       && j.phase.ApplyingPhase?
       && IsJournalFor(j, staged.record.id, paths, prior, staged.manifest.files, snapshot, data)
       && m == m0.(live := m.live, state := BegunState(m0.state, staged, j), proc := InApply)
  }

  lemma JournalBuilt(j: TransactionJournal, id: string, paths: seq<string>, prior: map<string, string>,
                     next: map<string, string>, snapshot: Option<string>, data: string)
    requires j.generationID == id && j.config == ConfigFor(id, |paths|, snapshot, data)
    requires |j.entries| == |paths| && forall i :: 0 <= i < |paths| ==>
      j.entries[i] == EntryFor(id, i, paths[i], prior, next)
    ensures IsJournalFor(j, id, paths, prior, next, snapshot, data)
  {
    hide EntryFor, ConfigFor;
  }

  lemma BeginUndisturbed(m: Machine, j: TransactionJournal)
    requires m.game.None?
    requires forall i :: 0 <= i < |AllEntries(j)| ==>
      Get(m.live, AllEntries(j)[i].relativePath) == Bytes(AllEntries(j)[i].original)
    ensures Undisturbed(m, Begin(j))
  {
    hide AllEntries;
  }

  /** What the save of the journal left. */
  lemma BegunSaved(d: Disk, m0: Machine, staged: StagedGeneration, j: TransactionJournal, paths: seq<string>,
                   prior: map<string, string>, snapshot: Option<string>, data: string, ok: bool, still: bool,
                   quiet: bool)
    requires d.Valid() && Inspected(m0, staged, paths, prior, snapshot, data) && j.phase.ApplyingPhase?
    requires IsJournalFor(j, staged.record.id, paths, prior, staged.manifest.files, snapshot, data)
    requires var w := m0.(state := BegunState(m0.state, staged, j), proc := InApply);
      (Drifted(m0, d.M(), quiet) && !ok) || Drifted(w, d.M(), quiet)
    requires still ==> m0.game.None? && InventoryMatches(m0.live, paths, prior) && Get(m0.live, CONFIG_PATH) == snapshot
    ensures d.M() == m0.(live := d.live) || BegunOn(m0, d.M(), staged, paths, prior, snapshot, data)
    ensures quiet && d.game.None? ==> d.live == m0.live
    ensures ok ==> BegunOn(m0, d.M(), staged, paths, prior, snapshot, data)
    ensures ok ==> Begun(d.M(), staged.record.id, prior, staged.manifest.files, still && quiet)
  {
    assert j.generationID == staged.record.id;
    hide Grounded, IsJournalFor, HasRuntimeFiles, InventoryMatches, Distinct, NoArtifactsBelow, IsName, Begun,
      Separated;
    if ok {
      assert d.state.transaction == Some(j);
      LedgerJournal(d);
      JournalArtifactsEmpty(d);
      GenerationConsistent(d, staged.record.id);
      BegunIs(d.M(), staged, j, paths, prior, snapshot, data, still && quiet);
    }
  }

  lemma JournalArtifactsEmpty(d: Disk)
    requires d.Valid() && d.state.transaction.Some? &&
      NoArtifactsBelow(d.artifacts, d.state.transaction.value.generationID)
    ensures forall i :: 0 <= i < |Entries(d.M())| ==>
      Entries(d.M())[i].quarantinePath !in d.artifacts && Entries(d.M())[i].tombstonePath !in d.artifacts
  {
    GroundedAccepts(d.world, d.outside, d.states, d.log, d.M());
    hide Grounded, ValidTransactionState, NoArtifactsBelow;
    forall i | 0 <= i < |Entries(d.M())|
      ensures Entries(d.M())[i].quarantinePath !in d.artifacts && Entries(d.M())[i].tombstonePath !in d.artifacts
    {
      BeginArtifactsAbsent(d.state, d.artifacts, i);
    }
  }

  // ---- The end of the swap ----

  /** Both kinds of entries, the configuration last. */
  method ApplyAll(d: Disk, staged: StagedGeneration, prior: map<string, string>, ghost still: bool) returns (ok: bool)
    requires d.Valid() && d.state.transaction.Some? && (!d.outside ==> still)
    requires Begun(d.M(), staged.record.id, prior, staged.manifest.files, still)
    requires ConfigInstalls(d.state.transaction.value)
    modifies d
    ensures d.Valid() && d.faults <= old(d.faults) && d.edits <= old(d.edits)
    ensures d.M() == old(d.M()).(live := d.live, artifacts := d.artifacts, proc := d.proc)
    ensures d.proc == old(d.proc) || d.proc.Recovering?
    ensures ok ==> d.proc == old(d.proc)
    ensures ok ==> AppliedUpTo(old(d.M()), d.M(), |Entries(old(d.M()))|, still && d.edits == old(d.edits))
    ensures !ok && still && d.edits == old(d.edits) ==> d.faults < old(d.faults)
    ensures KeepsEdit(old(d.Around()), d.Around(), prior, still)
    ensures !ok && OneEdit(old(d.Around()), d.Around(), still) ==> NothingForeign(d.M())
  {
    hide Grounded, Begun, AppliedUpTo, OnlyThis, AtWork, Separated, KeepsEdit, NothingForeign;
    ghost var m0 := d.M();
    var j := d.state.transaction.value;
    ok := ApplyEntries(d, staged.record.id, prior, staged.manifest.files, still);
    if !ok {
      return false;
    }
    ghost var m, edits := d.M(), d.edits;
    ghost var q := still && edits == old(d.edits);
    AppliedFrame(m0, m, |j.entries|, q);
    if j.config.Some? {
      var e := j.config.value;
      BegunConfig(m0, staged.record.id, prior, staged.manifest.files, still);
      ConfigEntryPath(d);
      NextToApply(m0, m, |j.entries|, q);
      ghost var s := d.Around();
      ok := ApplyConfig(d, e, |j.entries|, Bytes(e.original), e.installed.content, prior, q);
      KeepsEditTransitive(old(d.Around()), s, d.Around(), prior, still, q);
      OnlyThisFrame(m, d.M(), e, d.edits == edits && d.game.None?);
      if !ok {
        if OneEdit(s, d.Around(), q) {
          OneForeignFree(m0, m, d.M(), |j.entries|, q, d.edits == edits && d.game.None?);
        }
        return false;
      }
      OneMoreApplied(m0, m, d.M(), |j.entries|, q, d.edits == edits && d.game.None?);
      AtWorkFrame(d.M(), |j.entries|, e, Bytes(e.original));
      AppliedWeaken(m0, d.M(), |j.entries| + 1, q && d.edits == edits && d.game.None?,
        still && d.edits == old(d.edits));
    }
  }

  lemma ConfigEntryPath(d: Disk)
    requires d.Valid() && d.state.transaction.Some? && d.state.transaction.value.config.Some?
    ensures d.state.transaction.value.config.value.relativePath == CONFIG_PATH
  {
    GroundedAccepts(d.world, d.outside, d.states, d.log, d.M());
    hide Grounded, IsName, QuarantineName, TombstoneName, IsRelativePath, Split;
    var j := d.state.transaction.value;
    assert AllEntries(j)[|j.entries|] == j.config.value;
  }

  predicate ConfigInstalls(j: TransactionJournal) {
    j.config.Some? ==> j.config.value.installed.ShaOf?
  }

  lemma AppliedFrame(m0: Machine, m: Machine, index: nat, still: bool)
    requires index <= |Entries(m0)| && AppliedUpTo(m0, m, index, still)
    ensures m == m0.(live := m.live, artifacts := m.artifacts)
  {
    hide LiveApplied;
  }

  lemma BegunConfig(m0: Machine, id: string, prior: map<string, string>, next: map<string, string>, still: bool)
    requires Begun(m0, id, prior, next, still) && m0.state.transaction.Some? && m0.state.transaction.value.config.Some?
    ensures var e := m0.state.transaction.value.config.value;
      && |m0.state.transaction.value.entries| < |Entries(m0)| == |m0.state.transaction.value.entries| + 1
      && Entries(m0)[|m0.state.transaction.value.entries|] == e
      && e.existed == Bytes(e.original).Some? && (still ==> Get(m0.live, e.relativePath) == Bytes(e.original))
    ensures ModeOf(m0).ApplyMode? && Separated(Entries(m0)) && (still ==> m0.game.None?)
  {
    hide Separated;
    var n := |m0.state.transaction.value.entries|;
    assert Entries(m0)[n] == m0.state.transaction.value.config.value;
  }

  lemma MarkPermitted(m0: Machine, m: Machine, still: bool)
    requires ModeOf(m0).ApplyMode? && AppliedUpTo(m0, m, |Entries(m0)|, still) &&
      m0.state.transaction.value.phase.ApplyingPhase?
    requires ConfigInstalls(m0.state.transaction.value)
    ensures Enabled(m, MarkApplied) && (still ==> Undisturbed(m, MarkApplied))
    ensures Step(m, MarkApplied) == m.(state := AppliedStateOf(m0.state), proc := Serving)
  {
    var all, n := Entries(m0), |m0.state.transaction.value.entries|;
    assert Entries(m) == all;
    if still {
      forall i | 0 <= i < |all|
        ensures ViewAt(m, all[i]) == Installed(all[i])
      {
        assert Get(m.live, all[i].relativePath) == Bytes(all[i].installed);
      }
      if m0.state.transaction.value.config.Some? {
        assert all[n] == m0.state.transaction.value.config.value;
      }
    }
  }

  function AppliedStateOf(s: State): State
    requires s.transaction.Some?
  {
    s.(transaction := Some(s.transaction.value.(phase := AppliedPhase)))
  }

  /** The last write of Apply. */
  method FinishApply(d: Disk, ghost m0: Machine, ghost still: bool) returns (ok: bool)
    requires d.Valid() && ModeOf(m0).ApplyMode? && AppliedUpTo(m0, d.M(), |Entries(m0)|, still)
    requires m0.state.transaction.value.phase.ApplyingPhase? && ConfigInstalls(m0.state.transaction.value)
    requires !d.outside ==> still
    modifies d
    ensures d.Valid() && d.faults <= old(d.faults) && d.edits <= old(d.edits)
    ensures d.generations == old(d.generations) && d.lock == old(d.lock) && d.game == old(d.game)
    ensures d.state == old(d.state) || d.state == AppliedStateOf(old(d.state))
    ensures ok ==> d.state == AppliedStateOf(old(d.state)) && d.proc.Serving?
    ensures d.edits == old(d.edits) && d.game.None? ==> d.live == old(d.live)
    ensures !ok ==> d.faults < old(d.faults)
    ensures EditedLast(old(d.Around()), d.Around(), old(d.live))
  {
    MarkPermitted(m0, d.M(), still);
    AppliedFrame(m0, d.M(), |Entries(m0)|, still);
    hide Grounded, Enabled, Undisturbed, Step, AppliedUpTo;
    ok := d.SaveState(AppliedStateOf(d.state), Serving, d.backups, MarkApplied);
  }

  // ---- Apply ----

  /** The live files after the swap: `next` instead of `prior`, the edited configuration, and nothing else. */
  ghost predicate Swapped(before: map<string, string>, after: map<string, string>, prior: map<string, string>,
                          next: map<string, string>, template: string) {
    && (forall p :: p != CONFIG_PATH ==>
          Get(after, p) == if p in prior || p in next then Get(next, p) else Get(before, p))
    && Get(after, CONFIG_PATH) ==
         Some(ConfigEdit.Disabled(if CONFIG_PATH in before then before[CONFIG_PATH] else template))
  }

  lemma SwappedIs(m0: Machine, m: Machine, j: TransactionJournal, id: string, paths: seq<string>,
                  prior: map<string, string>,
                  next: map<string, string>, snapshot: Option<string>, data: string, template: string)
    requires m0.state.transaction == Some(j) && LiveApplied(m0, m, |Entries(m0)|)
    requires IsJournalFor(j, id, paths, prior, next, snapshot, data) && forall p :: p in paths <==>
      p in prior || p in next
    requires CONFIG_PATH !in prior && CONFIG_PATH !in next
    requires snapshot == Get(m0.live, CONFIG_PATH)
    requires data == ConfigEdit.Disabled(if snapshot.Some? then snapshot.value else template)
    ensures Swapped(m0.live, m.live, prior, next, template)
  {
    hide IsJournalFor, HasEntry, ConfigEdit.Disabled;
    AppliedOf(m0, m, j);
    forall p | p != CONFIG_PATH
      ensures Get(m.live, p) == if p in prior || p in next then Get(next, p) else Get(m0.live, p)
    {
      if p in paths {
        var i := PathEntry(j, id, paths, prior, next, snapshot, data, p);
      } else {
        OtherPath(j, id, paths, prior, next, snapshot, data, p);
      }
    }
    ConfigPathOf(j, id, paths, prior, next, snapshot, data);
    hide AllEntries, LiveApplied;
    assert Get(m.live, CONFIG_PATH) == Some(data);
  }

  /** What has been applied, said of the journal instead of the machine. */
  lemma AppliedOf(m0: Machine, m: Machine, j: TransactionJournal)
    requires m0.state.transaction == Some(j) && LiveApplied(m0, m, |Entries(m0)|)
    ensures forall i :: 0 <= i < |AllEntries(j)| ==>
      Get(m.live, AllEntries(j)[i].relativePath) == Bytes(AllEntries(j)[i].installed)
    ensures forall p :: !HasEntry(AllEntries(j), p) ==> Get(m.live, p) == Get(m0.live, p)
  {
    hide HasEntry;
    var all := Entries(m0);
    assert all == AllEntries(j) && all[..|all|] == all;
  }

  /** The entry of a managed path installs what the next inventory has there. */
  lemma PathEntry(j: TransactionJournal, id: string, paths: seq<string>, prior: map<string, string>,
                  next: map<string, string>, snapshot: Option<string>, data: string, p: string) returns (i: nat)
    requires IsJournalFor(j, id, paths, prior, next, snapshot, data) && p in paths
    ensures i < |AllEntries(j)| && AllEntries(j)[i].relativePath == p &&
      Bytes(AllEntries(j)[i].installed) == Get(next, p)
  {
    hide QuarantineName, TombstoneName;
    i :| 0 <= i < |paths| && paths[i] == p;
    assert AllEntries(j)[i] == j.entries[i];
  }

  lemma OtherPath(j: TransactionJournal, id: string, paths: seq<string>, prior: map<string, string>,
                  next: map<string, string>, snapshot: Option<string>, data: string, p: string)
    requires IsJournalFor(j, id, paths, prior, next, snapshot, data) && p !in paths && p != CONFIG_PATH
    ensures !HasEntry(AllEntries(j), p)
  {
    hide QuarantineName, TombstoneName;
  }

  lemma ConfigPathOf(j: TransactionJournal, id: string, paths: seq<string>, prior: map<string, string>,
                     next: map<string, string>, snapshot: Option<string>, data: string)
    requires IsJournalFor(j, id, paths, prior, next, snapshot, data)
    requires CONFIG_PATH !in paths
    ensures if snapshot == Some(data) then j.config.None? && !HasEntry(AllEntries(j), CONFIG_PATH)
      else && j.config.Some? && |AllEntries(j)| == |j.entries| + 1
           && AllEntries(j)[|j.entries|].relativePath == CONFIG_PATH
           && Bytes(AllEntries(j)[|j.entries|].installed) == Some(data)
  {
    hide QuarantineName, TombstoneName;
  }

  /** What Apply checks of the durable state and of live files before it writes anything. */
  ghost predicate Applicable(m: Machine, staged: StagedGeneration) {
    && StagedMatches(m.generations, staged)
    && m.state.transaction.None?
    && var prior := FilesOf(m, m.state.active);
       forall p :: p in prior || p in staged.manifest.files ==> Get(m.live, p) == Get(prior, p)
  }

  /** Apply is done: the candidate is journaled as applied, and the process may promote it. */
  ghost predicate AppliedFrom(s: State, m: Machine, staged: StagedGeneration) {
    && m.proc.Serving? && m.state.transaction.Some?
    && var j := m.state.transaction.value;
       && j.phase.AppliedPhase? && j.generationID == staged.record.id
       && JournalOf(j, FilesOf(m, s.active), staged.manifest.files)
       && m.state == BegunState(s, staged, j)
  }

  /** Apply stopped half-way: nothing was written, or the journal of the candidate is in force. */
  ghost predicate Stopped(s: State, m: Machine, staged: StagedGeneration) {
    || m.state == s
    || (m.state.transaction.Some? && m.state == BegunState(s, staged, m.state.transaction.value))
  }

  /** The part of Apply that writes, on what was inspected. */
  method Swap(d: Disk, staged: StagedGeneration, paths: seq<string>, prior: map<string, string>,
              snapshot: Option<string>, data: string, ghost still: bool) returns (ok: bool)
    requires d.Valid() && Inspected(d.M(), staged, paths, prior, snapshot, data)
    requires data ==
      ConfigEdit.Disabled(if snapshot.Some? then snapshot.value else d.generations[staged.record.id].configTemplate)
    requires still ==> d.game.None? && InventoryMatches(d.live, paths, prior) && Get(d.live, CONFIG_PATH) == snapshot
    requires !d.outside ==> still
    modifies d
    ensures d.Valid() && d.faults <= old(d.faults) && d.edits <= old(d.edits)
    ensures d.generations == old(d.generations) && d.lock == old(d.lock) && d.game == old(d.game)
    ensures Stopped(old(d.state), d.M(), staged)
    ensures ok ==> AppliedFrom(old(d.state), d.M(), staged)
    ensures ok && still && d.edits == old(d.edits) ==>
      Swapped(old(d.live), d.live, prior, staged.manifest.files, d.generations[staged.record.id].configTemplate)
    ensures !ok && still && d.edits == old(d.edits) ==> d.faults < old(d.faults)
    ensures KeepsEdit(old(d.Around()), d.Around(), prior, still)
    ensures !ok && OneEdit(old(d.Around()), d.Around(), still) ==> NothingForeign(d.M())
  {
    hide Grounded, Inspected, Begun, BegunOn, AppliedUpTo, AppliedFrom, Stopped, Swapped, ConfigEdit.Disabled,
      InventoryMatches, StagedMatches, KeepsEdit, EditedLast, NothingForeign;
    ghost var m0 := d.M();
    InspectedIs(d, staged, paths, prior, snapshot, data);
    ok := BeginApply(d, staged, paths, prior, snapshot, data, still);
    ghost var m1, edits, s1 := d.M(), d.edits, d.Around();
    UntouchedKeepsEdit(old(d.Around()), s1, prior, still);
    StoppedBegun(m0, m1, staged, paths, prior, snapshot, data);
    if !ok {
      return false;
    }
    ghost var q := still && edits == old(d.edits);
    BegunOnIs(m0, m1, staged, paths, prior, snapshot, data);
    ok := ApplyAll(d, staged, prior, q);
    ghost var s2 := d.Around();
    KeepsEditTransitive(old(d.Around()), s1, s2, prior, still, q);
    StoppedSame(m0.state, m1, d.M(), staged);
    if !ok {
      return false;
    }
    ghost var m2, r := d.M(), q && d.edits == edits;
    ok := FinishApply(d, m1, r);
    UntouchedKeepsEdit(s2, d.Around(), prior, true);
    KeepsEditTransitive(old(d.Around()), s2, d.Around(), prior, still, true);
    SwapEnds(m0, m1, m2, d.M(), staged, paths, prior, snapshot, data, ok, r);
  }

  lemma InspectedIs(d: Disk, staged: StagedGeneration, paths: seq<string>, prior: map<string, string>,
                    snapshot: Option<string>, data: string)
    requires d.Valid() && Inspected(d.M(), staged, paths, prior, snapshot, data)
    ensures d.state.promotion.None?
    ensures CONFIG_PATH !in prior && CONFIG_PATH !in staged.manifest.files
  {
    FilesAreManaged(d, d.state.active);
    FilesAreManaged(d, Some(staged.record));
    ConfigIsNotManaged();
    hide Grounded, IsManagedRuntimePath, IsRelativePath, HasRuntimeFiles;
  }

  lemma StoppedBegun(m0: Machine, m: Machine, staged: StagedGeneration, paths: seq<string>, prior: map<string, string>,
                     snapshot: Option<string>, data: string)
    requires m == m0.(live := m.live) || BegunOn(m0, m, staged, paths, prior, snapshot, data)
    ensures Stopped(m0.state, m, staged)
  {
    hide IsJournalFor;
  }

  lemma StoppedSame(s: State, m: Machine, w: Machine, staged: StagedGeneration)
    requires Stopped(s, m, staged) && w.state == m.state
    ensures Stopped(s, w, staged)
  {
  }

  lemma BegunOnIs(m0: Machine, m: Machine, staged: StagedGeneration, paths: seq<string>, prior: map<string, string>,
                  snapshot: Option<string>, data: string)
    requires BegunOn(m0, m, staged, paths, prior, snapshot, data)
    ensures m.state.transaction.Some? && ConfigInstalls(m.state.transaction.value)
    ensures m.state.transaction.value.phase.ApplyingPhase?
    ensures m == m0.(live := m.live, state := BegunState(m0.state, staged, m.state.transaction.value), proc := InApply)
    ensures m0.state.promotion.None? ==> ModeOf(m).ApplyMode?
  {
    hide EntryFor;
  }

  lemma SwapEnds(m0: Machine, m1: Machine, m2: Machine, m: Machine, staged: StagedGeneration, paths: seq<string>,
                 prior: map<string, string>, snapshot: Option<string>, data: string, ok: bool, still: bool)
    requires Inspected(m0, staged, paths, prior, snapshot, data) &&
      BegunOn(m0, m1, staged, paths, prior, snapshot, data)
    requires CONFIG_PATH !in prior && CONFIG_PATH !in staged.manifest.files
    requires AppliedUpTo(m1, m2, |Entries(m1)|, still)
    requires m2 == m1.(live := m2.live, artifacts := m2.artifacts)
    requires m.state == m2.state || m.state == AppliedStateOf(m2.state)
    requires ok ==> m.state == AppliedStateOf(m2.state) && m.proc.Serving?
    requires m.generations == m0.generations
    ensures Stopped(m0.state, m, staged)
    ensures ok ==> AppliedFrom(m0.state, m, staged)
    ensures still && m.live == m2.live && m1.live == m0.live && Get(m0.live, CONFIG_PATH) == snapshot
      && data == ConfigEdit.Disabled(if snapshot.Some? then snapshot.value
        else m0.generations[staged.record.id].configTemplate)
      ==> Swapped(m0.live, m.live, prior, staged.manifest.files, m0.generations[staged.record.id].configTemplate)
  {
    var j := m1.state.transaction.value;
    hide ConfigEdit.Disabled, IsJournalFor, LiveApplied, Swapped, HasRuntimeFiles, NeverApplied, JournalOf;
    DifferenceOf(m0, staged, j, paths, prior, snapshot, data);
    if still && m.live == m2.live && m1.live == m0.live && Get(m0.live, CONFIG_PATH) == snapshot
       && data == ConfigEdit.Disabled(if snapshot.Some? then snapshot.value
         else m0.generations[staged.record.id].configTemplate) {
      SwappedIs(m1, m2, j, staged.record.id, paths, prior, staged.manifest.files, snapshot, data,
                m0.generations[staged.record.id].configTemplate);
    }
  }

  lemma DifferenceOf(m0: Machine, staged: StagedGeneration, j: TransactionJournal, paths: seq<string>,
                     prior: map<string, string>, snapshot: Option<string>, data: string)
    requires Inspected(m0, staged, paths, prior, snapshot, data)
    requires CONFIG_PATH !in prior && CONFIG_PATH !in staged.manifest.files
    requires IsJournalFor(j, staged.record.id, paths, prior, staged.manifest.files, snapshot, data)
    ensures JournalOf(j.(phase := AppliedPhase), prior, staged.manifest.files)
    ensures j.generationID == staged.record.id
  {
    hide HasRuntimeFiles, NeverApplied;
    forall i | 0 <= i < |paths|
      ensures paths[i] != CONFIG_PATH
    {
      assert paths[i] in paths;
    }
    hide EntryFor, ConfigFor;
    BuiltDifference(staged.record.id, j.(phase := AppliedPhase), paths, prior, staged.manifest.files, snapshot, data);
  }

  /** verifyStagedOverlay: the overlay holds exactly the listed files. */
  method VerifyStagedOverlay(d: Disk, staged: StagedGeneration) returns (ok: bool)
    requires d.Valid() && StagedMatches(d.generations, staged)
    modifies d`faults
    ensures d.Valid() && d.M() == old(d.M()) && d.faults <= old(d.faults) && d.edits == old(d.edits)
    ensures !ok ==> d.faults < old(d.faults)
  {
    GenerationConsistent(d, staged.record.id);
    hide Grounded, HasRuntimeFiles, IsName, ValidManifest, PackageLockDigest;
    var fault := d.NextFault();
    return fault.NoFault? && d.generations[staged.record.id].overlay == staged.manifest.files;
  }

  /** Everything Apply inspects after reconciliation, and then the swap. */
  method InspectAndSwap(d: Disk, staged: StagedGeneration) returns (ok: bool)
    requires d.Valid() && StagedMatches(d.generations, staged) && NeverApplied(d.M(), staged.record.id)
    requires d.state.transaction.None? && d.state.promotion.None? && d.state.candidate.None?
    requires !d.state.runtime.ready && (!d.outside ==> d.game.None?)
    modifies d
    ensures d.Valid() && d.faults <= old(d.faults) && d.edits <= old(d.edits) && d.game == old(d.game)
    ensures Stopped(old(d.state), d.M(), staged) && d.generations == old(d.generations)
    ensures ok ==> AppliedFrom(old(d.state), d.M(), staged)
    ensures ok && d.edits == old(d.edits) && d.game.None? ==>
      Swapped(old(d.live), d.live, FilesOf(old(d.M()), old(d.state).active), staged.manifest.files,
              d.generations[staged.record.id].configTemplate)
    ensures d.edits == old(d.edits) && d.faults == old(d.faults) && d.game.None? ==>
      (ok <==> Applicable(old(d.M()), staged))
    ensures KeepsEdit(old(d.Around()), d.Around(), FilesOf(old(d.M()), old(d.state).active), true)
    ensures !ok && OneEdit(old(d.Around()), d.Around(), true) ==> NothingForeign(d.M())
  {
    hide Grounded, NeverApplied, StagedMatches, Applicable, AppliedFrom, Swapped, ConfigEdit.Disabled, FilesOf,
      EditStays, NothingForeign;
    ghost var m0 := d.M();
    SameStopped(m0.state, m0, staged);
    NoJournalNothingForeign(m0);
    var prior;
    ok, prior := LoadPrior(d);
    if !ok {
      return false;
    }
    ok := VerifyStagedOverlay(d, staged);
    if !ok {
      return false;
    }
    var paths := UnionManagedPaths(prior, staged.manifest.files);
    ApplicableIs(m0, staged, paths, prior);
    hide InventoryMatches, Ascending, Distinct, Stopped;
    ok := InspectInventory(d, paths, prior);
    StoppedLive(m0, d.M(), staged);
    NoJournalNothingForeign(d.M());
    ghost var s := d.Around();
    if !ok {
      return false;
    }
    ghost var still := d.edits == old(d.edits) && d.game.None?;
    ok := PrepareAndSwap(d, staged, paths, prior, m0, still);
    KeepsEditTransitive(old(d.Around()), s, d.Around(), prior, true, still);
  }

  lemma StagedIsThere(generations: map<string, Generation>, staged: StagedGeneration)
    requires StagedMatches(generations, staged)
    ensures staged.record.id in generations
  {
    hide HasRuntimeFiles;
  }

  /** The configuration and the directories, once the inventory was inspected. */
  method PrepareAndSwap(d: Disk, staged: StagedGeneration, paths: seq<string>, prior: map<string, string>,
                        ghost m0: Machine, ghost still: bool) returns (ok: bool)
    requires d.Valid() && d.M() == m0.(live := d.live)
    requires StagedMatches(m0.generations, staged) && NeverApplied(m0, staged.record.id)
    requires m0.state.transaction.None? && m0.state.promotion.None? && m0.state.candidate.None? &&
      !m0.state.runtime.ready
    requires prior == FilesOf(m0, m0.state.active)
    requires Distinct(paths) && forall p :: p in paths <==> p in prior || p in staged.manifest.files
    requires !d.outside ==> still
    requires still ==> d.live == m0.live && d.game.None? && InventoryMatches(d.live, paths, prior)
    modifies d
    ensures d.Valid() && d.faults <= old(d.faults) && d.edits <= old(d.edits)
    ensures d.game == m0.game && d.generations == m0.generations
    ensures Stopped(m0.state, d.M(), staged)
    ensures ok ==> AppliedFrom(m0.state, d.M(), staged)
    ensures ok && still && d.edits == old(d.edits) ==>
      Swapped(m0.live, d.live, prior, staged.manifest.files, m0.generations[staged.record.id].configTemplate)
    ensures !ok && still && d.edits == old(d.edits) ==> d.faults < old(d.faults)
    ensures KeepsEdit(old(d.Around()), d.Around(), prior, still)
    ensures !ok && OneEdit(old(d.Around()), d.Around(), still) ==> NothingForeign(d.M())
  {
    hide Grounded, NeverApplied, AppliedFrom, Swapped, ConfigEdit.Disabled, InventoryMatches, Distinct, Stopped,
      StagedMatches, FilesOf, Inspected, KeepsEdit, NothingForeign;
    SameStopped(m0.state, d.M(), staged);
    StagedIsThere(m0.generations, staged);
    var snapshot, data;
    ok, snapshot, data := PrepareConsoleConfig(d, staged.record.id);
    StoppedLive(m0, d.M(), staged);
    if ok {
      ok := d.Sync();
    }
    ghost var s := d.Around();
    UntouchedKeepsEdit(old(d.Around()), s, prior, still);
    if !ok {
      return false;
    }
    InspectedNow(m0, d.M(), staged, paths, prior, snapshot, data);
    ghost var q := still && d.edits == old(d.edits);
    ok := Swap(d, staged, paths, prior, snapshot, data, q);
    KeepsEditTransitive(old(d.Around()), s, d.Around(), prior, still, q);
  }

  lemma InspectedNow(m0: Machine, m: Machine, staged: StagedGeneration, paths: seq<string>, prior: map<string, string>,
                     snapshot: Option<string>, data: string)
    requires m == m0.(live := m.live)
    requires StagedMatches(m0.generations, staged) && NeverApplied(m0, staged.record.id)
    requires m0.state.transaction.None? && m0.state.promotion.None? && m0.state.candidate.None? &&
      !m0.state.runtime.ready
    requires prior == FilesOf(m0, m0.state.active)
    requires Distinct(paths) && forall p :: p in paths <==> p in prior || p in staged.manifest.files
    ensures Inspected(m, staged, paths, prior, snapshot, data)
  {
    hide HasRuntimeFiles, Distinct, NoArtifactsBelow, IsName;
  }

  lemma SameStopped(s: State, m: Machine, staged: StagedGeneration)
    requires m.state == s
    ensures Stopped(s, m, staged)
  {
  }

  lemma StoppedLive(m0: Machine, m: Machine, staged: StagedGeneration)
    requires m == m0.(live := m.live)
    ensures Stopped(m0.state, m, staged)
  {
  }

  lemma ApplicableIs(m: Machine, staged: StagedGeneration, paths: seq<string>, prior: map<string, string>)
    requires StagedMatches(m.generations, staged) && m.state.transaction.None? && prior == FilesOf(m, m.state.active)
    requires forall p :: p in paths <==> p in prior || p in staged.manifest.files
    ensures Applicable(m, staged) <==> InventoryMatches(m.live, paths, prior)
  {
    hide HasRuntimeFiles, FilesOf;
    if InventoryMatches(m.live, paths, prior) {
      forall p | p in prior || p in staged.manifest.files
        ensures Get(m.live, p) == Get(prior, p)
      {
        var i :| 0 <= i < |paths| && paths[i] == p;
      }
    }
    if Applicable(m, staged) {
      forall i | 0 <= i < |paths|
        ensures Get(m.live, paths[i]) == Get(prior, paths[i])
      {
        assert paths[i] in paths;
      }
    }
  }

  /** Nothing is pending. */
  predicate IsIdle(s: State) {
    s.promotion.None? && s.transaction.None?
  }

  /** The durable records after reconciliation of whatever was pending. */
  function Settling(s: State): State {
    if s.promotion.Some? then Destination(s) else s
  }

  /** Reconciliation makes no generation referenced and puts nothing below a directory. */
  lemma StillNeverApplied(m0: Machine, m: Machine, id: string)
    requires NeverApplied(m0, id) && Reconciled(m0, m) && m.artifacts.Keys <= m0.artifacts.Keys
    requires m0.state.promotion.None? ==> m == m0
    ensures NeverApplied(m, id)
  {
    hide IsName, GenerationPrefix, Surviving;
    if m0.state.promotion.Some? {
      ReferencesShrink(m0.state, id);
    }
  }

  lemma ReferencesShrink(s: State, id: string)
    requires s.promotion.Some?
    ensures IsReferenced(Destination(s), id) ==> IsReferenced(s, id)
  {
  }

  /**
   * Apply. A pending promotion is reconciled first. A success leaves the journal applied and, if
   * no one else wrote, the live files swapped; a failure leaves nothing written or the journal in
   * force. With nothing pending, no fault, no outside write and no game running it succeeds exactly when the
   * staged value is the persisted one, no transaction is in force and every path is as the
   * inventory of the active generation says.
   */
  method Apply(d: Disk, staged: StagedGeneration) returns (ok: bool)
    requires d.Valid()
    requires StagedMatches(d.generations, staged) ==> NeverApplied(d.M(), staged.record.id)
    requires !d.state.runtime.ready && (!d.outside ==> d.game.None?)
    modifies d
    ensures d.Valid() && d.faults <= old(d.faults) && d.edits <= old(d.edits) && d.game == old(d.game)
    ensures ok ==> AppliedFrom(Settling(old(d.state)), d.M(), staged)
    ensures !ok ==>
      || Stopped(Settling(old(d.state)), d.M(), staged)
      || (old(d.state).promotion.Some? && Destination(d.state) == Destination(old(d.state)))
    ensures ok ==> StagedMatches(d.generations, staged)
    ensures ok && old(d.state).promotion.None? && d.edits == old(d.edits) && d.game.None? ==>
      Swapped(old(d.live), d.live, FilesOf(old(d.M()), old(d.state).active), staged.manifest.files,
              d.generations[staged.record.id].configTemplate)
    ensures old(d.state).promotion.None? && d.edits == old(d.edits) && d.faults == old(d.faults) && d.game.None? ==>
      (ok <==> Applicable(old(d.M()), staged))
    ensures old(d.state).promotion.None? ==>
      KeepsEdit(old(d.Around()), d.Around(), FilesOf(old(d.M()), old(d.state).active), true)
    ensures !ok && IsIdle(old(d.state)) && OneEdit(old(d.Around()), d.Around(), true) ==> NothingForeign(d.M())
  {
    hide Grounded, EditStays, NothingForeign, ArtifactsMatch, Reconciled, NeverApplied, StagedMatches, Applicable,
      AppliedFrom, Stopped, Swapped, Ledger, Destination, FilesOf, ValidTransactionState;
    ghost var m0 := d.M();
    SameStopped(m0.state, m0, staged);
    LedgerNow(d);
    IdleMatches(m0);
    NotApplicable(m0, staged);
    ok := ReconcilePromotion(d);
    if !ok {
      return false;
    }
    SettledNow(m0, d.M(), staged);
    ok := ApplySettled(d, staged);
  }

  /** The rest of Apply, with no promotion pending. */
  method ApplySettled(d: Disk, staged: StagedGeneration) returns (ok: bool)
    requires d.Valid() && d.state.promotion.None?
    requires StagedMatches(d.generations, staged) ==> NeverApplied(d.M(), staged.record.id)
    requires !d.state.runtime.ready && (!d.outside ==> d.game.None?)
    modifies d
    ensures d.Valid() && d.faults <= old(d.faults) && d.edits <= old(d.edits) && d.game == old(d.game)
    ensures Stopped(old(d.state), d.M(), staged)
    ensures ok ==> AppliedFrom(old(d.state), d.M(), staged) && StagedMatches(d.generations, staged)
    ensures ok && d.edits == old(d.edits) && d.game.None? ==>
      Swapped(old(d.live), d.live, FilesOf(old(d.M()), old(d.state).active), staged.manifest.files,
              d.generations[staged.record.id].configTemplate)
    ensures d.edits == old(d.edits) && d.faults == old(d.faults) && d.game.None? ==>
      (ok <==> Applicable(old(d.M()), staged))
    ensures KeepsEdit(old(d.Around()), d.Around(), FilesOf(old(d.M()), old(d.state).active), true)
    ensures !ok && old(d.state).transaction.None? && OneEdit(old(d.Around()), d.Around(), true) ==>
      NothingForeign(d.M())
  {
    hide Grounded, NeverApplied, StagedMatches, Applicable, AppliedFrom, Stopped, Swapped, FilesOf,
      EditStays, NothingForeign;
    SameStopped(d.state, d.M(), staged);
    NotApplicable(d.M(), staged);
    if d.state.transaction.None? {
      NoJournalNothingForeign(d.M());
    }
    GroundedAccepts(d.world, d.outside, d.states, d.log, d.M());
    ok := OpenAndValidateStaged(d, staged);
    if !ok {
      return false;
    }
    var s;
    ok, s := d.Load();
    if !ok {
      return false;
    }
    if s.transaction.Some? {
      return false;
    }
    if s.candidate.Some? {
      assert false;
    }
    hide ValidTransactionState;
    ok := InspectAndSwap(d, staged);
  }

  lemma IdleMatches(m: Machine)
    requires Ledger(m)
    ensures m.state.transaction.None? ==> ArtifactsMatch(m)
  {
    hide Ledger;
  }

  lemma SettledNow(m0: Machine, m1: Machine, staged: StagedGeneration)
    requires Reconciled(m0, m1) && (m0.state.promotion.None? ==> m1 == m0) && m1.artifacts.Keys <= m0.artifacts.Keys
    ensures m1.state.runtime.ready ==> m0.state.runtime.ready
    ensures m1.state == Settling(m0.state) && m1.state.promotion.None? && Stopped(Settling(m0.state), m1, staged)
    ensures NeverApplied(m0, staged.record.id) ==> NeverApplied(m1, staged.record.id)
    ensures StagedMatches(m1.generations, staged) ==> StagedMatches(m0.generations, staged)
  {
    hide NeverApplied, HasRuntimeFiles;
    if NeverApplied(m0, staged.record.id) {
      StillNeverApplied(m0, m1, staged.record.id);
    }
  }

  lemma NotApplicable(m: Machine, staged: StagedGeneration)
    ensures Applicable(m, staged) ==> StagedMatches(m.generations, staged) && m.state.transaction.None?
  {
    hide StagedMatches;
  }
}
