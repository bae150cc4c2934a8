/** The layout of a package archive: inspectZIP, and the outputs the two extraction policies select. */
module Archives {
  import opened Prelude

  datatype FileKind = RegularFile | Directory | OtherKind

  datatype ZipFile = ZipFile(name: string, kind: FileKind, size: nat)

  datatype ArchiveEntry = ArchiveEntry(path: string, isDirectory: bool, size: nat)

  const MAX_UINT64: nat := 0xFFFF_FFFF_FFFF_FFFF
  const MANIFEST := "manifest.json"

  // ---- Paths ----

  predicate HasVolumePrefix(name: string) {
    |name| >= 2 && ('A' <= name[0] <= 'Z' || 'a' <= name[0] <= 'z') && name[1] == ':'
  }

  function TrimSlash(name: string): string {
    if name != "" && name[|name| - 1] == '/' then name[..|name| - 1] else name
  }

  /** safeArchivePath: a relative path below the root, for a file or a directory. */
  function SafePath(file: ZipFile): Option<ArchiveEntry> {
    var trimmed := TrimSlash(file.name);
    if file.name == "" || '\\' in file.name || file.name[0] == '/' || HasVolumePrefix(file.name) ||
      !IsRelativePath(trimmed)
       || file.kind.OtherKind? then None
    else Some(ArchiveEntry(trimmed, file.kind.Directory?, file.size))
  }

  /** The path of an entry, with or without a slash at its end: below the root, with no drive and no backslash. */
  ghost predicate NamedAs(name: string, path: string) {
    && (name == path || name == path + "/")
    && Ordinary(path) && '\\' !in path
    && !(|path| >= 2 && (65 <= path[0] as int <= 90 || 97 <= path[0] as int <= 122) && path[1] == ':')
  }

  lemma SafePathMeans(file: ZipFile, path: string)
    ensures (SafePath(file).Some? && SafePath(file).value.path == path) <==>
      !file.kind.OtherKind? && NamedAs(file.name, path)
    ensures SafePath(file).Some? ==>
      SafePath(file).value.isDirectory == file.kind.Directory? && SafePath(file).value.size == file.size
  {
    var trimmed := TrimSlash(file.name);
    RelativePathMeans(trimmed);
    RelativePathMeans(path);
    hide IsRelativePath;
    if NamedAs(file.name, path) {
      NoSlashAtEnd(path);
      assert (path + "/")[..|path|] == path;
    }
    if SafePath(file).Some? {
      NoSlashAtEnd(trimmed);
      assert file.name == trimmed || file.name == trimmed + "/";
    }
    hide Ordinary;
  }

  lemma NoSlashAtEnd(path: string)
    requires Ordinary(path)
    ensures path[|path| - 1] != '/' && path[0] != '/'
  {
    if path[|path| - 1] == '/' {
      assert IsPart(path, path, "", "");
    }
    if path[0] == '/' {
      assert IsPart(path, "", "", path);
    }
  }

  /** `a` is a proper ancestor of `b`. */
  predicate Ancestor(a: string, b: string) {
    a + "/" <= b
  }

  function Head(parts: seq<string>, i: nat): string
    requires i <= |parts|
  {
    Join(parts[..i], '/')
  }

  /** The proper ancestors of a path are the joins of its leading pieces. */
  lemma AncestorIsHead(a: string, p: string)
    ensures Ancestor(a, p) <==> exists i :: 1 <= i < |Split(p, '/')| && Head(Split(p, '/'), i) == a
  {
    var parts := Split(p, '/');
    JoinSplit(p, '/');
    if Ancestor(a, p) {
      var rest := p[|a| + 1..];
      assert p == a + "/" + rest;
      var i := |Split(a, '/')|;
      SplitParts(a, rest);
      JoinSplit(a, '/');
      assert parts[..i] == Split(a, '/');
      assert Head(parts, i) == a;
    }
    if i :| 1 <= i < |parts| && Head(parts, i) == a {
      assert parts == parts[..i] + parts[i..];
      JoinParts(parts[..i], parts[i..]);
      assert p == a + "/" + Join(parts[i..], '/');
    }
  }

  lemma AncestorsAreHeads(path: string, parts: seq<string>)
    requires parts == Split(path, '/')
    ensures forall a :: Ancestor(a, path) <==> exists i :: 1 <= i < |parts| && Head(parts, i) == a
  {
    hide Ancestor, Head;
    forall a
      ensures Ancestor(a, path) <==> exists i :: 1 <= i < |parts| && Head(parts, i) == a
    {
      AncestorIsHead(a, path);
    }
  }

  // ---- What an accepted archive is ----

  predicate EntriesOf(files: seq<ZipFile>, entries: seq<ArchiveEntry>) {
    |entries| == |files| && forall i :: 0 <= i < |files| ==> SafePath(files[i]) == Some(entries[i])
  }

  predicate DistinctPaths(entries: seq<ArchiveEntry>) {
    forall i, k :: 0 <= i < k < |entries| ==> entries[i].path != entries[k].path
  }

  /** No regular file is an ancestor of another entry. */
  predicate IsTree(entries: seq<ArchiveEntry>) {
    forall i, k :: 0 <= i < |entries| && 0 <= k < |entries| && !entries[i].isDirectory ==>
      !Ancestor(entries[i].path, entries[k].path)
  }

  function TotalSize(entries: seq<ArchiveEntry>): nat {
    if entries == [] then 0
    else
      var last := entries[|entries| - 1];
      TotalSize(entries[..|entries| - 1]) + if last.isDirectory then 0 else last.size
  }

  predicate HasManifest(entries: seq<ArchiveEntry>) {
    exists i :: 0 <= i < |entries| && entries[i].path == MANIFEST && !entries[i].isDirectory
  }

  predicate ManifestIsFile(entries: seq<ArchiveEntry>) {
    forall i :: 0 <= i < |entries| ==> entries[i].path == MANIFEST ==> !entries[i].isDirectory
  }

  // ---- inspectZIP ----

  /** The maps of the first loop: every path and whether it is a directory. */
  ghost predicate KindsOf(entries: seq<ArchiveEntry>, kinds: map<string, bool>) {
    && (forall i :: 0 <= i < |entries| ==> entries[i].path in kinds && kinds[entries[i].path] == entries[i].isDirectory)
    && (forall p :: p in kinds ==> exists i :: 0 <= i < |entries| && entries[i].path == p)
  }

  /** The first loop: safe distinct paths, and a sum that does not overflow 64 bits. */
  method CollectEntries(files: seq<ZipFile>)
      returns (ok: bool, entries: seq<ArchiveEntry>, kinds: map<string, bool>, total: nat, manifest: bool)
    ensures ok ==>
      EntriesOf(files, entries) && DistinctPaths(entries) && KindsOf(entries, kinds) && ManifestIsFile(entries)
    ensures ok ==> total == TotalSize(entries) <= MAX_UINT64 && (manifest <==> HasManifest(entries))
    ensures !ok ==> forall es :: EntriesOf(files, es) ==>
      !DistinctPaths(es) || TotalSize(es) > MAX_UINT64 || !ManifestIsFile(es)
  {
    hide SafePath, Ancestor, KindsOf, HasManifest, DistinctPaths;
    entries, kinds, total, manifest := [], map[], 0, false;
    NoEntries();
    var i := 0;
    while i < |files|
      invariant 0 <= i <= |files| && EntriesOf(files[..i], entries)
      invariant DistinctPaths(entries) && KindsOf(entries, kinds) && ManifestIsFile(entries)
      invariant total == TotalSize(entries) <= MAX_UINT64
      invariant manifest <==> HasManifest(entries)
    {
      var safe := SafePath(files[i]);
      if safe.None? {
        return false, entries, kinds, total, manifest;
      }
      var entry := safe.value;
      assert files[..i + 1] == files[..i] + [files[i]];
      NextEntry(files, i, entries, entry);
      if entry.path in kinds {
        RepeatedPath(files, i, entries, entry, kinds);
        return false, entries, kinds, total, manifest;
      }
      if !entry.isDirectory {
        if MAX_UINT64 - total < entry.size {
          return false, entries, kinds, total, manifest;
        }
        total := total + entry.size;
      }
      if entry.path == MANIFEST {
        if entry.isDirectory {
          return false, entries, kinds, total, manifest;
        }
        manifest := true;
      }
      OneMoreEntry(entries, entry, kinds);
      kinds := kinds[entry.path := entry.isDirectory];
      entries := entries + [entry];
      i := i + 1;
    }
    assert files[..i] == files;
    ok := true;
  }

  lemma NoEntries()
    ensures KindsOf([], map[]) && DistinctPaths([]) && !HasManifest([])
  {
  }

  /** Whatever the whole list of entries is, it starts with those collected so far and the next one. */
  lemma NextEntry(files: seq<ZipFile>, i: nat, entries: seq<ArchiveEntry>, entry: ArchiveEntry)
    requires i < |files| && EntriesOf(files[..i], entries) && SafePath(files[i]) == Some(entry)
    ensures forall es :: EntriesOf(files, es) ==>
      entries + [entry] <= es && TotalSize(entries + [entry]) <= TotalSize(es)
  {
    hide SafePath;
    forall es | EntriesOf(files, es)
      ensures entries + [entry] <= es && TotalSize(entries + [entry]) <= TotalSize(es)
    {
      forall k | 0 <= k < i
        ensures es[k] == entries[k]
      {
        assert files[..i][k] == files[k];
      }
      assert es[..i + 1] == entries + [entry];
      TotalGrows(es, i + 1);
    }
  }

  lemma {:induction false} TotalGrows(entries: seq<ArchiveEntry>, n: nat)
    requires n <= |entries|
    ensures TotalSize(entries[..n]) <= TotalSize(entries)
    decreases |entries|
  {
    if n < |entries| {
      var front := entries[..|entries| - 1];
      TotalGrows(front, n);
      assert front[..n] == entries[..n];
    } else {
      assert entries[..n] == entries;
    }
  }

  lemma RepeatedPath(files: seq<ZipFile>, i: nat, entries: seq<ArchiveEntry>, entry: ArchiveEntry,
                     kinds: map<string, bool>)
    requires KindsOf(entries, kinds) && entry.path in kinds
    requires forall es :: EntriesOf(files, es) ==> entries + [entry] <= es
    ensures forall es :: EntriesOf(files, es) ==> !DistinctPaths(es)
  {
    hide EntriesOf;
    var k :| 0 <= k < |entries| && entries[k].path == entry.path;
    forall es | EntriesOf(files, es)
      ensures !DistinctPaths(es)
    {
      assert es[k] == (entries + [entry])[k] && es[|entries|] == (entries + [entry])[|entries|];
    }
  }

  lemma OneMoreEntry(entries: seq<ArchiveEntry>, entry: ArchiveEntry, kinds: map<string, bool>)
    requires KindsOf(entries, kinds) && DistinctPaths(entries) && entry.path !in kinds
    ensures KindsOf(entries + [entry], kinds[entry.path := entry.isDirectory]) && DistinctPaths(entries + [entry])
    ensures TotalSize(entries + [entry]) == TotalSize(entries) + if entry.isDirectory then 0 else entry.size
    ensures HasManifest(entries + [entry]) <==> HasManifest(entries) || (entry.path == MANIFEST && !entry.isDirectory)
  {
    OneMoreKind(entries, entry, kinds);
    OneMoreManifest(entries, entry);
    hide KindsOf, HasManifest;
    assert (entries + [entry])[..|entries|] == entries;
  }

  lemma OneMoreKind(entries: seq<ArchiveEntry>, entry: ArchiveEntry, kinds: map<string, bool>)
    requires KindsOf(entries, kinds) && DistinctPaths(entries) && entry.path !in kinds
    ensures KindsOf(entries + [entry], kinds[entry.path := entry.isDirectory]) && DistinctPaths(entries + [entry])
  {
    var more := entries + [entry];
    assert more[|entries|] == entry;
    forall i | 0 <= i < |entries|
      ensures more[i].path != entry.path && more[i] == entries[i]
    {
      assert entries[i].path in kinds;
    }
    var added := kinds[entry.path := entry.isDirectory];
    forall p | p in added
      ensures exists i :: 0 <= i < |more| && more[i].path == p
    {
      if p != entry.path {
        var i :| 0 <= i < |entries| && entries[i].path == p;
        assert more[i].path == p;
      }
    }
  }

  lemma OneMoreManifest(entries: seq<ArchiveEntry>, entry: ArchiveEntry)
    ensures HasManifest(entries + [entry]) <==> HasManifest(entries) || (entry.path == MANIFEST && !entry.isDirectory)
  {
    var more := entries + [entry];
    assert more[|entries|] == entry;
    if HasManifest(entries) {
      var i :| 0 <= i < |entries| && entries[i].path == MANIFEST && !entries[i].isDirectory;
      assert more[i] == entries[i];
    }
    if HasManifest(more) {
      var i :| 0 <= i < |more| && more[i].path == MANIFEST && !more[i].isDirectory;
      assert i < |entries| ==> entries[i] == more[i];
    }
  }

  /** The ancestors of one path that the archive also holds: none of them is a file. */
  method CheckAncestors(path: string, kinds: map<string, bool>) returns (ok: bool)
    ensures ok <==> forall a :: a in kinds && !kinds[a] ==> !Ancestor(a, path)
  {
    hide Ancestor, Head;
    var parts := Split(path, '/');
    AncestorsAreHeads(path, parts);
    var i := 1;
    while i < |parts|
      invariant 1 <= i <= |parts|
      invariant forall k :: 1 <= k < i ==> Head(parts, k) in kinds ==> kinds[Head(parts, k)]
    {
      if Head(parts, i) in kinds && !kinds[Head(parts, i)] {
        return false;
      }
      i := i + 1;
    }
    return true;
  }

  /** The entries below one file: there is none. */
  method CheckBelow(path: string, kinds: map<string, bool>) returns (ok: bool)
    ensures ok <==> forall other :: other in kinds ==> !Ancestor(path, other)
  {
    var rest := kinds.Keys;
    while rest != {}
      invariant rest <= kinds.Keys && forall other :: other in kinds.Keys - rest ==> !Ancestor(path, other)
      decreases |rest|
    {
      var other :| other in rest;
      if path + "/" <= other {
        return false;
      }
      rest := rest - {other};
    }
    return true;
  }

  /** No file of the maps is an ancestor of another path. */
  predicate TreeKinds(kinds: map<string, bool>) {
    forall a, b :: a in kinds && b in kinds && !kinds[a] ==> !Ancestor(a, b)
  }

  /** The second loop, over the map in any order. */
  method CheckTree(kinds: map<string, bool>) returns (ok: bool)
    ensures ok <==> TreeKinds(kinds)
  {
    hide Ancestor;
    var rest := kinds.Keys;
    while rest != {}
      invariant rest <= kinds.Keys
      invariant forall a, b :: a in kinds && b in kinds.Keys - rest && !kinds[a] ==> !Ancestor(a, b)
      decreases |rest|
    {
      var path :| path in rest;
      ok := CheckAncestors(path, kinds);
      if !ok {
        return false;
      }
      if !kinds[path] {
        ok := CheckBelow(path, kinds);
        if !ok {
          return false;
        }
      }
      rest := rest - {path};
    }
    return true;
  }

  lemma TreeOfKinds(entries: seq<ArchiveEntry>, kinds: map<string, bool>)
    requires KindsOf(entries, kinds)
    ensures TreeKinds(kinds) <==> IsTree(entries)
  {
    hide Ancestor;
    if IsTree(entries) {
      forall a, b | a in kinds && b in kinds && !kinds[a]
        ensures !Ancestor(a, b)
      {
        var i :| 0 <= i < |entries| && entries[i].path == a;
        var k :| 0 <= k < |entries| && entries[k].path == b;
        assert !Ancestor(entries[i].path, entries[k].path);
      }
    }
  }

  /**
   * inspectZIP accepts exactly the lists of safe distinct paths in which no file is an ancestor of
   * another entry, whose sizes sum up to what fits 64 bits, with a manifest that is a file.
   */
  method InspectZip(files: seq<ZipFile>) returns (ok: bool, entries: seq<ArchiveEntry>, total: nat)
    ensures ok <==>
      exists es ::
        EntriesOf(files, es) && DistinctPaths(es) && IsTree(es) && TotalSize(es) <= MAX_UINT64 && HasManifest(es)
    ensures ok ==> EntriesOf(files, entries) && DistinctPaths(entries) && IsTree(entries) && HasManifest(entries)
    ensures ok ==> total == TotalSize(entries) <= MAX_UINT64
  {
    hide SafePath, Ancestor;
    var kinds, manifest;
    ok, entries, kinds, total, manifest := CollectEntries(files);
    if !ok {
      ManifestDecides(files);
      return;
    }
    OnlyEntries(files, entries);
    TreeOfKinds(entries, kinds);
    ok := CheckTree(kinds);
    ok := ok && manifest;
  }

  lemma OnlyEntries(files: seq<ZipFile>, entries: seq<ArchiveEntry>)
    requires EntriesOf(files, entries)
    ensures forall es :: EntriesOf(files, es) ==> es == entries
  {
    hide SafePath;
  }

  lemma ManifestDecides(files: seq<ZipFile>)
    ensures forall es :: EntriesOf(files, es) && DistinctPaths(es) && HasManifest(es) ==> ManifestIsFile(es)
  {
    hide SafePath;
  }

  // ---- Selection ----

  datatype Selected = Selected(entry: ArchiveEntry, output: string)

  function LowerAll(s: string): string {
    if s == "" then "" else [Lower(s[0])] + LowerAll(s[1..])
  }

  /** path.Ext: from the last dot of the last piece on. */
  function Extension(name: string): string
    decreases |name|
  {
    if name == "" || name[|name| - 1] == '/' then ""
    else if name[|name| - 1] == '.' then "."
    else
      var front := Extension(name[..|name| - 1]);
      if front == "" then "" else front + [name[|name| - 1]]
  }

  predicate IsDll(name: string) {
    EqualFold(Extension(name), ".dll")
  }

  lemma {:induction false} ExtensionOf(stem: string, rest: string)
    requires '.' !in rest && '/' !in rest
    ensures Extension(stem + "." + rest) == "." + rest
    decreases |rest|
  {
    var name := stem + "." + rest;
    if rest == "" {
      assert name == stem + ".";
    } else {
      var shorter := rest[..|rest| - 1];
      ExtensionOf(stem, shorter);
      assert name[..|name| - 1] == stem + "." + shorter;
    }
  }

  lemma {:induction false} ExtensionEnds(name: string) returns (stem: string)
    ensures name == stem + Extension(name)
    decreases |name|
  {
    stem := name;
    if Extension(name) == "" {
      assert name + "" == name;
    } else if name[|name| - 1] == '.' {
      stem := name[..|name| - 1];
    } else {
      stem := ExtensionEnds(name[..|name| - 1]);
    }
  }

  /** A DLL is a file whose last four characters are a dot and the three letters, in either case. */
  lemma DllMeans(name: string)
    ensures IsDll(name) <==> |name| >= 4 && SameLetters(name[|name| - 4..], ".dll")
  {
    FoldMeans(Extension(name), ".dll");
    if IsDll(name) {
      var stem := ExtensionEnds(name);
      assert name[|stem|..] == Extension(name);
    }
    if |name| >= 4 && SameLetters(name[|name| - 4..], ".dll") {
      var stem, rest := name[..|name| - 4], name[|name| - 3..];
      assert name[|name| - 4..][0] == '.' && name == stem + "." + rest;
      DllLetters(name[|name| - 4..], rest);
      ExtensionOf(stem, rest);
      assert "." + rest == name[|name| - 4..];
    }
  }

  lemma DllLetters(ending: string, rest: string)
    requires SameLetters(ending, ".dll") && rest == ending[1..]
    ensures '.' !in rest && '/' !in rest
  {
    assert ".dll"[1] == 'd' && ".dll"[2] == 'l' && ".dll"[3] == 'l';
  }

  /** Names that lower case does not tell apart. */
  lemma {:induction false} LowerMeans(a: string, b: string)
    ensures LowerAll(a) == LowerAll(b) <==> SameLetters(a, b)
    decreases |a|
  {
    LowerLength(a);
    LowerLength(b);
    if a != "" && b != "" {
      LowerMeans(a[1..], b[1..]);
      assert LowerAll(a) == [Lower(a[0])] + LowerAll(a[1..]);
      assert LowerAll(b) == [Lower(b[0])] + LowerAll(b[1..]);
      assert LowerAll(a)[1..] == LowerAll(a[1..]) && LowerAll(b)[1..] == LowerAll(b[1..]);
      assert SameLetters(a, b) ==> SameLetters(a[1..], b[1..]);
      if SameLetters(a[1..], b[1..]) {
        assert forall i :: 0 < i < |a| ==> a[i] == a[1..][i - 1] && b[i] == b[1..][i - 1];
      }
    }
  }

  lemma {:induction false} LowerLength(s: string)
    ensures |LowerAll(s)| == |s|
  {
    if s != "" {
      LowerLength(s[1..]);
    }
  }

  const WRAPPER := "BepInExPack_V_Rising"

  datatype Policy = ExtractPlugin | ExtractBepInEx

  /** What an archive entry is extracted to, if it is. */
  function Output(policy: Policy, entry: ArchiveEntry): Option<string> {
    match policy
    case ExtractPlugin =>
      var name := if "plugins/" <= entry.path then entry.path[|"plugins/"|..] else entry.path;
      if !entry.isDirectory && '/' !in name && IsDll(name) then Some(name) else None
    case ExtractBepInEx =>
      if WRAPPER + "/" < entry.path then Some(entry.path[|WRAPPER| + 1..]) else None
  }

  /** What an archive may hold besides the entries that are extracted. */
  predicate MayHold(policy: Policy, entry: ArchiveEntry) {
    match policy
    case ExtractPlugin =>
      entry.path == MANIFEST || ('/' !in entry.path && (entry.isDirectory <==> entry.path == "plugins"))
    case ExtractBepInEx =>
      entry.path == WRAPPER + "/" || ('/' !in entry.path && (entry.isDirectory ==> entry.path == WRAPPER))
  }

  predicate AllPlaced(policy: Policy, entries: seq<ArchiveEntry>) {
    forall i :: 0 <= i < |entries| ==> Output(policy, entries[i]).Some? || MayHold(policy, entries[i])
  }

  /** The extracted entries, in the order of the archive. */
  function Chosen(policy: Policy, entries: seq<ArchiveEntry>): seq<Selected> {
    if entries == [] then []
    else
      var last := entries[|entries| - 1];
      var output := Output(policy, last);
      Chosen(policy, entries[..|entries| - 1]) + if output.None? then [] else [Selected(last, output.value)]
  }

  predicate FoldDistinct(selected: seq<Selected>) {
    forall i, k :: 0 <= i < k < |selected| ==> LowerAll(selected[i].output) != LowerAll(selected[k].output)
  }

  lemma ManifestIsNoDll()
    ensures !IsDll(MANIFEST) && !IsDll("plugins")
  {
    assert Extension("manifest.json") == ".json" by {
      assert MANIFEST[..12] == "manifest.jso" && MANIFEST[..11] == "manifest.js" && MANIFEST[..10] == "manifest.j";
      assert "manifest.jso"[..11] == "manifest.js" && "manifest.js"[..10] == "manifest.j" &&
        "manifest.j"[..9] == "manifest.";
      assert Extension("manifest.") == ".";
      assert Extension("manifest.j") == ".j";
      assert Extension("manifest.js") == ".js";
      assert Extension("manifest.jso") == ".jso";
    }
    assert "plugins"[..6] == "plugin" && "plugin"[..5] == "plugi" && "plugi"[..4] == "plug" && "plug"[..3] == "plu";
    assert "plu"[..2] == "pl" && "pl"[..1] == "p" && "p"[..0] == "";
    assert Extension("p") == "";
    assert Extension("pl") == "";
    assert Extension("plu") == "";
    assert Extension("plug") == "";
    assert Extension("plugi") == "";
    assert Extension("plugin") == "";
  }

  /** One more entry seen: the selection so far is a prefix of the whole one. */
  lemma {:induction false} ChosenGrows(policy: Policy, entries: seq<ArchiveEntry>, n: nat)
    requires n <= |entries|
    ensures Chosen(policy, entries[..n]) <= Chosen(policy, entries)
    decreases |entries|
  {
    if n < |entries| {
      hide Output;
      var front := entries[..|entries| - 1];
      ChosenGrows(policy, front, n);
      assert front[..n] == entries[..n];
    } else {
      assert entries[..n] == entries;
    }
  }

  lemma ChosenNext(policy: Policy, entries: seq<ArchiveEntry>, n: nat)
    requires n < |entries|
    ensures Output(policy, entries[n]).None? ==> Chosen(policy, entries[..n + 1]) == Chosen(policy, entries[..n])
    ensures Output(policy, entries[n]).Some? ==>
      Chosen(policy, entries[..n + 1]) ==
        Chosen(policy, entries[..n]) + [Selected(entries[n], Output(policy, entries[n]).value)]
  {
    hide Output;
    assert entries[..n + 1][..n] == entries[..n];
  }

  /** The plugin policy: DLLs at the root or directly below plugins, told apart whatever their case. */
  method SelectPlugins(entries: seq<ArchiveEntry>) returns (ok: bool, selected: seq<Selected>)
    ensures ok <==> AllPlaced(ExtractPlugin, entries) && Chosen(ExtractPlugin, entries) != []
                    && FoldDistinct(Chosen(ExtractPlugin, entries))
    ensures ok ==> selected == Chosen(ExtractPlugin, entries)
  {
    hide LowerAll, IsDll, Chosen;
    selected := [];
    var seen: set<string> := {};
    ManifestIsNoDll();
    ChosenNone(ExtractPlugin, entries);
    for n := 0 to |entries|
      invariant selected == Chosen(ExtractPlugin, entries[..n]) && FoldDistinct(selected)
      invariant forall i :: 0 <= i < n ==> Output(ExtractPlugin, entries[i]).Some? || MayHold(ExtractPlugin, entries[i])
      invariant seen == set i | 0 <= i < |selected| :: LowerAll(selected[i].output)
    {
      var entry := entries[n];
      ChosenNext(ExtractPlugin, entries, n);
      assert "plugins/"[0] == 'p' && "plugins/"[|"plugins"|] == '/';
      SlashIn("plugins/", entry.path);
      if entry.path == MANIFEST {
        continue;
      }
      var output;
      if '/' !in entry.path {
        if entry.isDirectory {
          if entry.path == "plugins" {
            continue;
          }
          return false, [];
        }
        if entry.path == "plugins" {
          return false, [];
        }
        if !IsDll(entry.path) {
          continue;
        }
        output := entry.path;
      } else {
        if !("plugins/" <= entry.path) {
          return false, [];
        }
        output := entry.path[|"plugins/"|..];
        if entry.isDirectory || output == "" || '/' in output || !IsDll(output) {
          SlashedIsRefused(entry);
          return false, [];
        }
      }
      TakenName(entry, output);
      if LowerAll(output) in seen {
        SameFold(ExtractPlugin, entries, n, selected, output);
        return false, [];
      }
      FoldsGrow(selected, Selected(entry, output));
      seen := seen + {LowerAll(output)};
      selected := selected + [Selected(entry, output)];
    }
    assert entries[..|entries|] == entries;
    ok := selected != [];
  }

  /** One more output, of a name not used so far. */
  lemma FoldsGrow(selected: seq<Selected>, next: Selected)
    requires FoldDistinct(selected) && LowerAll(next.output) !in set i | 0 <= i < |selected| ::
      LowerAll(selected[i].output)
    ensures FoldDistinct(selected + [next])
    ensures (set i | 0 <= i <= |selected| :: LowerAll((selected + [next])[i].output)) ==
      (set i | 0 <= i < |selected| :: LowerAll(selected[i].output)) + {LowerAll(next.output)}
  {
    hide LowerAll;
    var more := selected + [next];
    assert forall i :: 0 <= i < |selected| ==> more[i] == selected[i];
    assert more[|selected|] == next;
    var before := set i | 0 <= i < |selected| :: LowerAll(selected[i].output);
    forall s | s in before
      ensures exists i :: 0 <= i <= |selected| && LowerAll(more[i].output) == s
    {
      var i :| 0 <= i < |selected| && LowerAll(selected[i].output) == s;
      assert LowerAll(more[i].output) == s;
    }
    forall i, k | 0 <= i < k < |more|
      ensures LowerAll(more[i].output) != LowerAll(more[k].output)
    {
      assert LowerAll(selected[i].output) in before;
    }
  }

  lemma SlashIn(prefix: string, path: string)
    requires '/' in prefix
    ensures prefix <= path ==> '/' in path
  {
    var i :| 0 <= i < |prefix| && prefix[i] == '/';
    assert prefix <= path ==> path[i] == prefix[i];
  }

  lemma ChosenNone(policy: Policy, entries: seq<ArchiveEntry>)
    ensures Chosen(policy, entries[..0]) == []
  {
  }

  lemma TakenName(entry: ArchiveEntry, output: string)
    requires !entry.isDirectory && '/' !in output && IsDll(output)
    requires entry.path == output || entry.path == "plugins/" + output
    ensures Output(ExtractPlugin, entry) == Some(output)
  {
    hide IsDll;
    assert "plugins/"[|"plugins"|] == '/';
    SlashIn("plugins/", output);
  }

  /** A path below plugins that is not a DLL's is refused. */
  lemma SlashedIsRefused(entry: ArchiveEntry)
    requires "plugins/" <= entry.path && entry.path != MANIFEST
    requires var name := entry.path[|"plugins/"|..]; entry.isDirectory || name == "" || '/' in name || !IsDll(name)
    ensures Output(ExtractPlugin, entry).None? && !MayHold(ExtractPlugin, entry)
  {
    assert entry.path[|"plugins"|] == '/';
    assert !IsDll("");
  }

  /** A second output equal up to case. */
  lemma SameFold(policy: Policy, entries: seq<ArchiveEntry>, n: nat, selected: seq<Selected>, output: string)
    requires n < |entries| && selected == Chosen(policy, entries[..n]) && Output(policy, entries[n]) == Some(output)
    requires exists i :: 0 <= i < |selected| && LowerAll(selected[i].output) == LowerAll(output)
    ensures !FoldDistinct(Chosen(policy, entries))
  {
    hide LowerAll, Output, Chosen;
    var i :| 0 <= i < |selected| && LowerAll(selected[i].output) == LowerAll(output);
    ChosenNext(policy, entries, n);
    ChosenGrows(policy, entries, n + 1);
    var all := Chosen(policy, entries);
    var more := selected + [Selected(entries[n], output)];
    assert more <= all;
    assert all[i] == more[i] && all[|selected|] == more[|selected|];
  }

  /** The BepInEx policy: everything below the wrapper directory, without the wrapper. */
  method SelectBepInEx(entries: seq<ArchiveEntry>) returns (ok: bool, selected: seq<Selected>)
    ensures ok <==> AllPlaced(ExtractBepInEx, entries) && Chosen(ExtractBepInEx, entries) != []
    ensures ok ==> selected == Chosen(ExtractBepInEx, entries)
  {
    hide Chosen;
    selected := [];
    var prefix := WRAPPER + "/";
    ChosenNone(ExtractBepInEx, entries);
    for n := 0 to |entries|
      invariant selected == Chosen(ExtractBepInEx, entries[..n])
      invariant forall i :: 0 <= i < n ==>
        Output(ExtractBepInEx, entries[i]).Some? || MayHold(ExtractBepInEx, entries[i])
    {
      var entry := entries[n];
      ChosenNext(ExtractBepInEx, entries, n);
      assert prefix[|WRAPPER|] == '/';
      SlashIn(prefix, entry.path);
      if '/' !in entry.path {
        if entry.isDirectory && entry.path != WRAPPER {
          return false, [];
        }
        continue;
      }
      if !(prefix <= entry.path) {
        return false, [];
      }
      var output := entry.path[|prefix|..];
      if output == "" {
        assert entry.path == prefix;
        continue;
      }
      selected := selected + [Selected(entry, output)];
    }
    assert entries[..|entries|] == entries;
    ok := selected != [];
  }

  ghost predicate OwnPaths(selected: seq<Selected>) {
    forall i, k :: 0 <= i < k < |selected| ==> selected[i].entry.path != selected[k].entry.path
  }

  /** Each chosen file comes from an entry of its own. */
  lemma {:induction false} ChosenFrom(policy: Policy, entries: seq<ArchiveEntry>)
    requires DistinctPaths(entries)
    ensures forall c :: c in Chosen(policy, entries) ==> c.entry in entries && Output(policy, c.entry) == Some(c.output)
    ensures OwnPaths(Chosen(policy, entries))
  {
    hide Output, OwnPaths;
    if entries == [] {
      NoPaths();
    } else {
      var front, last := entries[..|entries| - 1], entries[|entries| - 1];
      assert entries == front + [last];
      ChosenFrom(policy, front);
      var before := Chosen(policy, front);
      var output := Output(policy, last);
      var added: seq<Selected> := if output.None? then [] else [Selected(last, output.value)];
      assert Chosen(policy, entries) == before + added;
      forall c: Selected | c in before + added
        ensures c.entry in entries && Output(policy, c.entry) == Some(c.output)
      {
        if c !in before {
          assert c in added;
        }
      }
      assert forall i :: 0 <= i < |front| ==> front[i] == entries[i];
      forall i | 0 <= i < |before|
        ensures before[i].entry.path != last.path
      {
        assert before[i] in before;
        var k :| 0 <= k < |front| && front[k] == before[i].entry;
        assert entries[k] == front[k];
      }
      OneMorePath(before, last.path, added);
    }
  }

  lemma NoPaths()
    ensures OwnPaths([])
  {
  }

  lemma OneMorePath(before: seq<Selected>, path: string, added: seq<Selected>)
    requires OwnPaths(before)
    requires forall i :: 0 <= i < |before| ==> before[i].entry.path != path
    requires |added| <= 1 && forall c :: c in added ==> c.entry.path == path
    ensures OwnPaths(before + added)
  {
    var all := before + added;
    forall i, k | 0 <= i < k < |all|
      ensures all[i].entry.path != all[k].entry.path
    {
      assert all[i] == before[i];
      assert if k < |before| then all[k] == before[k] else all[k] in added;
    }
  }

  lemma UnderSame(w: string, a: string, b: string)
    ensures Ancestor(a, b) ==> Ancestor(w + a, w + b)
  {
    if Ancestor(a, b) {
      var rest := b[|a| + 1..];
      assert b == (a + "/") + rest;
      Associative(w, a + "/", rest);
      Associative(w, a, "/");
      assert w + b == ((w + a) + "/") + rest;
    }
  }

  lemma Collides(entries: seq<ArchiveEntry>, file: ArchiveEntry, other: ArchiveEntry)
    requires IsTree(entries) && file in entries && other in entries && !file.isDirectory
    ensures !Ancestor(file.path, other.path)
  {
    var i :| 0 <= i < |entries| && entries[i] == file;
    var k :| 0 <= k < |entries| && entries[k] == other;
    assert !Ancestor(entries[i].path, entries[k].path);
  }

  /**
   * In an accepted archive the outputs of either policy are distinct, and none passes through an
   * extracted file.
   */
  lemma OutputsFormATree(policy: Policy, entries: seq<ArchiveEntry>)
    requires DistinctPaths(entries) && IsTree(entries)
    requires policy.ExtractPlugin? ==> FoldDistinct(Chosen(policy, entries))
    ensures var chosen := Chosen(policy, entries);
      && (forall i, k :: 0 <= i < k < |chosen| ==> chosen[i].output != chosen[k].output)
      && (forall i, k :: 0 <= i < |chosen| && 0 <= k < |chosen| && !chosen[i].entry.isDirectory ==>
        !Ancestor(chosen[i].output, chosen[k].output))
  {
    ChosenFrom(policy, entries);
    ChosenFormATree(policy, entries, Chosen(policy, entries));
  }

  lemma ChosenFormATree(policy: Policy, entries: seq<ArchiveEntry>, chosen: seq<Selected>)
    requires IsTree(entries) && OwnPaths(chosen)
    requires forall c :: c in chosen ==> c.entry in entries && Output(policy, c.entry) == Some(c.output)
    requires policy.ExtractPlugin? ==> FoldDistinct(chosen)
    ensures forall i, k :: 0 <= i < k < |chosen| ==> chosen[i].output != chosen[k].output
    ensures forall i, k :: 0 <= i < |chosen| && 0 <= k < |chosen| && !chosen[i].entry.isDirectory ==>
      !Ancestor(chosen[i].output, chosen[k].output)
  {
    hide Output, LowerAll, IsTree, Ancestor;
    forall i, k | 0 <= i < |chosen| && 0 <= k < |chosen| && !chosen[i].entry.isDirectory
      ensures !Ancestor(chosen[i].output, chosen[k].output)
    {
      assert chosen[i] in chosen && chosen[k] in chosen;
      OutputUnderFile(policy, entries, chosen[i], chosen[k]);
    }
    forall i, k | 0 <= i < k < |chosen|
      ensures chosen[i].output != chosen[k].output
    {
      assert chosen[i] in chosen && chosen[k] in chosen;
      if policy.ExtractBepInEx? {
        WrapperOf(chosen[i].entry);
        WrapperOf(chosen[k].entry);
      } else {
        assert LowerAll(chosen[i].output) != LowerAll(chosen[k].output);
      }
    }
  }

  lemma WrapperOf(entry: ArchiveEntry)
    requires Output(ExtractBepInEx, entry).Some?
    ensures entry.path == WRAPPER + "/" + Output(ExtractBepInEx, entry).value
  {
  }

  lemma OutputUnderFile(policy: Policy, entries: seq<ArchiveEntry>, file: Selected, other: Selected)
    requires IsTree(entries) && file.entry in entries && other.entry in entries && !file.entry.isDirectory
    requires Output(policy, file.entry) == Some(file.output) && Output(policy, other.entry) == Some(other.output)
    ensures !Ancestor(file.output, other.output)
  {
    hide IsDll;
    if policy.ExtractPlugin? {
      assert (file.output + "/")[|file.output|] == '/';
      SlashIn(file.output + "/", other.output);
    } else {
      WrapperOf(file.entry);
      WrapperOf(other.entry);
      UnderSame(WRAPPER + "/", file.output, other.output);
      Collides(entries, file.entry, other.entry);
    }
  }
}
