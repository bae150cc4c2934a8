/** validateManagedPackageLock: what a lock must be, and that its digest and order decide its content. */
module Locks {
  import opened Prelude
  import opened Packages
  import opened Ordering
  import opened Resolver

  datatype Kind = BepInEx | VampireCommandFramework | Kindred | HookDOTS | Satisvampory

  /** managedPackageKind. */
  function ManagedKind(ref: PackageRef): Option<Kind> {
    if ref.namespace == "BepInEx" && ref.name == "BepInExPack_V_Rising" then Some(BepInEx)
    else if ref.namespace == "deca" && ref.name == "VampireCommandFramework" then Some(VampireCommandFramework)
    else if ref.namespace == "odjit" && ref.name == "KindredCommands" then Some(Kindred)
    else if ref.namespace == "cheesasaurus" && ref.name == "HookDOTS_API" then Some(HookDOTS)
    else if ref.namespace == "Team_GreenEye" && ref.name == "Satisvampory" then Some(Satisvampory)
    else None
  }

  predicate AllDigits(s: string) {
    s != "" && forall i :: 0 <= i < |s| ==> '0' <= s[i] <= '9'
  }

  /** Three dotted numbers. */
  predicate IsSemanticVersion(version: string) {
    var parts := Split(version, '.');
    |parts| == 3 && AllDigits(parts[0]) && AllDigits(parts[1]) && AllDigits(parts[2])
  }

  predicate IsHexSha256(s: string) {
    |s| == 64 && forall i :: 0 <= i < |s| ==> '0' <= s[i] <= '9' || 'a' <= s[i] <= 'f' || 'A' <= s[i] <= 'F'
  }

  /** validateManagedRootRefs. */
  predicate ManagedRoots(roots: seq<PackageRef>) {
    && |roots| == 2
    && ManagedKind(roots[0]) == Some(Kindred) && IsSemanticVersion(roots[0].version)
    && ManagedKind(roots[1]) == Some(Satisvampory) && IsSemanticVersion(roots[1].version)
  }

  predicate ValidLocked(p: LockedPackage) {
    p.fullName == VersionFullName(p.ref) && p.downloadURL != "" && p.fileSize > 0 && IsHexSha256(p.sha256)
  }

  function RefsIn(packages: seq<LockedPackage>): (refs: seq<PackageRef>)
    ensures |refs| == |packages| && forall i :: 0 <= i < |refs| ==> refs[i] == packages[i].ref
  {
    if packages == [] then [] else [packages[0].ref] + RefsIn(packages[1..])
  }

  /** The dependencies a lock lists, by package. */
  function LockedGraph(packages: seq<LockedPackage>): (g: Graph)
    ensures forall ref :: ref in g <==> ref in RefsIn(packages)
  {
    if packages == [] then map[]
    else
      var last := packages[|packages| - 1];
      RefsInSplit(packages);
      LockedGraph(packages[..|packages| - 1])[last.ref := last.dependencies]
  }

  lemma {:induction false} RefsInSplit(packages: seq<LockedPackage>)
    requires packages != []
    ensures RefsIn(packages) == RefsIn(packages[..|packages| - 1]) + [packages[|packages| - 1].ref]
  {
  }

  lemma {:induction false} LockedAt(packages: seq<LockedPackage>, i: nat)
    requires DistinctRefs(packages) && i < |packages|
    ensures packages[i].ref in LockedGraph(packages) &&
      LockedGraph(packages)[packages[i].ref] == packages[i].dependencies
    decreases |packages|
  {
    if i < |packages| - 1 {
      LockedAt(packages[..|packages| - 1], i);
    }
  }

  // ---- Validation ----

  predicate DistinctKinds(packages: seq<LockedPackage>) {
    forall i, k :: 0 <= i < k < |packages| ==> ManagedKind(packages[i].ref) != ManagedKind(packages[k].ref)
  }

  ghost predicate HasKind(packages: seq<LockedPackage>, kind: Kind) {
    exists i :: 0 <= i < |packages| && ManagedKind(packages[i].ref) == Some(kind)
  }

  predicate AllValid(packages: seq<LockedPackage>) {
    forall i :: 0 <= i < |packages| ==> ValidLocked(packages[i]) && ManagedKind(packages[i].ref).Some?
  }

  ghost predicate AllKinds(packages: seq<LockedPackage>) {
    forall kind: Kind :: HasKind(packages, kind)
  }

  /** The five managed packages in canonical order, the roots among them, and the digest of all that. */
  ghost predicate ValidLock(lock: PackageLock) {
    && lock.digest == PackageLockDigest(lock) && ManagedRoots(lock.roots) && |lock.packages| == 5
    && AllValid(lock.packages) && DistinctKinds(lock.packages) && AllKinds(lock.packages)
    && lock.roots[0] in RefsIn(lock.packages) && lock.roots[1] in RefsIn(lock.packages)
    && CanonicalOrder(lock.roots, LockedGraph(lock.packages)) == Ordered(RefsIn(lock.packages))
  }

  /** The packages seen so far, by kind. */
  ghost predicate SeenKinds(packages: seq<LockedPackage>, seen: map<Kind, PackageRef>) {
    && (forall i :: 0 <= i < |packages| ==>
          ManagedKind(packages[i].ref).Some? && ManagedKind(packages[i].ref).value in seen
          && seen[ManagedKind(packages[i].ref).value] == packages[i].ref)
    && (forall kind :: kind in seen ==> ManagedKind(seen[kind]) == Some(kind) && seen[kind] in RefsIn(packages))
    && DistinctKinds(packages)
  }

  lemma MoreKinds(packages: seq<LockedPackage>, i: nat, seen: map<Kind, PackageRef>)
    requires i < |packages| && SeenKinds(packages[..i], seen) && ManagedKind(packages[i].ref).Some?
    ensures ManagedKind(packages[i].ref).value !in seen ==>
      SeenKinds(packages[..i + 1], seen[ManagedKind(packages[i].ref).value := packages[i].ref])
    ensures ManagedKind(packages[i].ref).value in seen ==> !DistinctKinds(packages)
  {
    hide ManagedKind;
    assert packages[..i + 1] == packages[..i] + [packages[i]];
    if ManagedKind(packages[i].ref).value in seen {
      KindRepeated(packages, i, seen);
    } else {
      KindAdded(packages[..i], packages[i], seen);
    }
  }

  lemma KindRepeated(packages: seq<LockedPackage>, i: nat, seen: map<Kind, PackageRef>)
    requires i < |packages| && SeenKinds(packages[..i], seen)
    requires ManagedKind(packages[i].ref).Some? && ManagedKind(packages[i].ref).value in seen
    ensures !DistinctKinds(packages)
  {
    hide ManagedKind;
    var k :| 0 <= k < i && RefsIn(packages[..i])[k] == seen[ManagedKind(packages[i].ref).value];
    assert packages[..i][k] == packages[k];
  }

  lemma KindAdded(packages: seq<LockedPackage>, p: LockedPackage, seen: map<Kind, PackageRef>)
    requires SeenKinds(packages, seen) && ManagedKind(p.ref).Some? && ManagedKind(p.ref).value !in seen
    ensures SeenKinds(packages + [p], seen[ManagedKind(p.ref).value := p.ref])
  {
    DistinctAdded(packages, p, seen);
    hide ManagedKind, DistinctKinds;
    var more := packages + [p];
    RefsInSplit(more);
    assert more[..|packages|] == packages;
    hide RefsIn;
    assert forall i :: 0 <= i < |packages| ==> more[i] == packages[i];
  }

  lemma DistinctAdded(packages: seq<LockedPackage>, p: LockedPackage, seen: map<Kind, PackageRef>)
    requires SeenKinds(packages, seen) && ManagedKind(p.ref).Some? && ManagedKind(p.ref).value !in seen
    ensures DistinctKinds(packages + [p])
  {
    hide ManagedKind, RefsIn;
    var more := packages + [p];
    assert forall i :: 0 <= i < |packages| ==> more[i] == packages[i];
  }

  /** The kinds of all packages, or the first one that is none or repeated. */
  method CollectKinds(packages: seq<LockedPackage>) returns (ok: bool, seen: map<Kind, PackageRef>, dependencies: Graph)
    ensures ok ==> SeenKinds(packages, seen) && dependencies == LockedGraph(packages)
    ensures ok <==> AllValid(packages) && DistinctKinds(packages)
  {
    hide ValidLocked, ManagedKind, SeenKinds, DistinctKinds;
    seen, dependencies := map[], map[];
    NoKinds(packages);
    var i := 0;
    while i < |packages|
      invariant 0 <= i <= |packages|
      invariant SeenKinds(packages[..i], seen) && dependencies == LockedGraph(packages[..i])
      invariant forall k :: 0 <= k < i ==> ValidLocked(packages[k]) && ManagedKind(packages[k].ref).Some?
    {
      var locked := packages[i];
      if !ValidLocked(locked) {
        return false, seen, dependencies;
      }
      var kind := ManagedKind(locked.ref);
      if kind.None? {
        return false, seen, dependencies;
      }
      MoreKinds(packages, i, seen);
      if kind.value in seen {
        return false, seen, dependencies;
      }
      seen := seen[kind.value := locked.ref];
      dependencies := dependencies[locked.ref := locked.dependencies];
      assert packages[..i + 1][..i] == packages[..i];
      i := i + 1;
    }
    assert packages[..i] == packages;
    KindsAreDistinct(packages, seen);
    return true, seen, dependencies;
  }

  lemma NoKinds(packages: seq<LockedPackage>)
    ensures SeenKinds(packages[..0], map[])
  {
  }

  lemma KindsAreDistinct(packages: seq<LockedPackage>, seen: map<Kind, PackageRef>)
    requires SeenKinds(packages, seen)
    ensures DistinctKinds(packages)
  {
  }

  lemma SeenDecides(packages: seq<LockedPackage>, seen: map<Kind, PackageRef>, kind: Kind)
    requires SeenKinds(packages, seen)
    ensures kind in seen <==> HasKind(packages, kind)
    ensures kind in seen ==> forall ref :: ManagedKind(ref) == Some(kind) ==>
      (seen[kind] == ref <==> ref in RefsIn(packages))
  {
    hide ManagedKind;
    if kind in seen {
      var i :| 0 <= i < |packages| && RefsIn(packages)[i] == seen[kind];
      assert ManagedKind(packages[i].ref) == Some(kind);
    }
  }

  /** validateManagedPackageLock. */
  method ValidateManagedPackageLock(lock: PackageLock) returns (ok: bool)
    ensures ok <==> ValidLock(lock)
  {
    hide Canonical, ManagedKind, ValidLocked, IsSemanticVersion, CanonicalOrder, SeenKinds, DistinctKinds, LockedGraph;
    if lock.digest.NoDigest? || lock.digest != PackageLockDigest(lock) {
      return false;
    }
    if !ManagedRoots(lock.roots) || |lock.packages| != 5 {
      return false;
    }
    var seen, dependencies;
    ok, seen, dependencies := CollectKinds(lock.packages);
    if !ok {
      return false;
    }
    hide AllValid, HasKind, AllKinds, ManagedRoots;
    ok := HasAllKinds(lock.packages, seen);
    if !ok {
      return false;
    }
    RootsSeen(lock, seen);
    if seen[Kindred] != lock.roots[0] || seen[Satisvampory] != lock.roots[1] {
      return false;
    }
    var order;
    ok, order := CanonicalPackageOrder(lock.roots, dependencies);
    if !ok {
      return false;
    }
    ok := order == RefsIn(lock.packages);
  }

  /** The loop that misses no kind. */
  method HasAllKinds(packages: seq<LockedPackage>, seen: map<Kind, PackageRef>) returns (ok: bool)
    requires SeenKinds(packages, seen)
    ensures ok <==> AllKinds(packages)
    ensures ok ==> Kindred in seen && Satisvampory in seen
  {
    hide SeenKinds, HasKind;
    forall kind: Kind
      ensures kind in seen <==> HasKind(packages, kind)
    {
      SeenDecides(packages, seen, kind);
    }
    var kinds := [BepInEx, VampireCommandFramework, Kindred, HookDOTS, Satisvampory];
    for i := 0 to 5
      invariant forall k :: 0 <= k < i ==> kinds[k] in seen
    {
      if kinds[i] !in seen {
        return false;
      }
    }
    forall kind: Kind
      ensures kind in seen
    {
      match kind {
        case BepInEx => assert kinds[0] in seen;
        case VampireCommandFramework => assert kinds[1] in seen;
        case Kindred => assert kinds[2] in seen;
        case HookDOTS => assert kinds[3] in seen;
        case Satisvampory => assert kinds[4] in seen;
      }
    }
    return true;
  }

  lemma RootsSeen(lock: PackageLock, seen: map<Kind, PackageRef>)
    requires ManagedRoots(lock.roots) && SeenKinds(lock.packages, seen) && Kindred in seen && Satisvampory in seen
    ensures |lock.roots| == 2
    ensures seen[Kindred] == lock.roots[0] <==> lock.roots[0] in RefsIn(lock.packages)
    ensures seen[Satisvampory] == lock.roots[1] <==> lock.roots[1] in RefsIn(lock.packages)
  {
    SeenDecides(lock.packages, seen, Kindred);
    SeenDecides(lock.packages, seen, Satisvampory);
    hide SeenKinds, ManagedKind, IsSemanticVersion;
  }

  // ---- What a valid lock is ----

  ghost predicate DottedAs(version: string, a: string, b: string, c: string) {
    version == a + "." + (b + "." + c) && Number(a) && Number(b) && Number(c)
  }

  ghost predicate Number(s: string) {
    s != "" && forall i :: 0 <= i < |s| ==> 48 <= s[i] as int <= 57
  }

  /** Three runs of the digits 0 to 9 with dots between. */
  ghost predicate Dotted(version: string) {
    exists a, b, c :: DottedAs(version, a, b, c)
  }

  lemma VersionMeans(version: string)
    ensures IsSemanticVersion(version) <==> Dotted(version)
  {
    hide Split, Join;
    if IsSemanticVersion(version) {
      VersionParts(version);
    }
    if a, b, c :| DottedAs(version, a, b, c) {
      assert '.' as int == 46 && '.' !in a && '.' !in b && '.' !in c;
      SplitPart(a, b + "." + c, '.');
      SplitPart(b, c, '.');
      SplitSingle(c, '.');
    }
  }

  lemma VersionParts(version: string)
    requires IsSemanticVersion(version)
    ensures Dotted(version)
  {
    JoinSplit(version, '.');
    var parts := Split(version, '.');
    hide Split;
    var a, b, c := parts[0], parts[1], parts[2];
    assert parts == [a, b, c] && parts[1..] == [b, c] && [b, c][1..] == [c];
    assert Join([c], '.') == c && Join([b, c], '.') == b + "." + c;
    hide Join;
    assert DottedAs(version, a, b, c);
  }

  ghost predicate HasPackage(packages: seq<LockedPackage>, namespace: string, name: string) {
    exists i :: 0 <= i < |packages| && packages[i].ref.namespace == namespace && packages[i].ref.name == name
  }

  ghost predicate HasRef(packages: seq<LockedPackage>, ref: PackageRef) {
    exists i :: 0 <= i < |packages| && packages[i].ref == ref
  }

  /** Full name, address, size and 64 hexadecimal digits. */
  ghost predicate Complete(p: LockedPackage) {
    && p.fullName == p.ref.namespace + "-" + p.ref.name + "-" + p.ref.version
    && p.downloadURL != "" && p.fileSize > 0 && |p.sha256| == 64
    && forall i :: 0 <= i < 64 ==>
         var x := p.sha256[i] as int; 48 <= x <= 57 || 97 <= x <= 102 || 65 <= x <= 70
  }

  /** The two roots in their order, and the five packages, once each, with all that is to be known of them. */
  ghost predicate HoldsManagedPackages(lock: PackageLock) {
    && |lock.roots| == 2
    && lock.roots[0].namespace == "odjit" && lock.roots[0].name == "KindredCommands"
    && lock.roots[1].namespace == "Team_GreenEye" && lock.roots[1].name == "Satisvampory"
    && Dotted(lock.roots[0].version) && Dotted(lock.roots[1].version)
    && |lock.packages| == 5
    && HasPackage(lock.packages, "BepInEx", "BepInExPack_V_Rising")
    && HasPackage(lock.packages, "deca", "VampireCommandFramework")
    && HasPackage(lock.packages, "odjit", "KindredCommands")
    && HasPackage(lock.packages, "cheesasaurus", "HookDOTS_API")
    && HasPackage(lock.packages, "Team_GreenEye", "Satisvampory")
    && HasRef(lock.packages, lock.roots[0]) && HasRef(lock.packages, lock.roots[1])
    && forall i :: 0 <= i < 5 ==> Complete(lock.packages[i])
  }

  lemma CompleteMeans(p: LockedPackage)
    ensures ValidLocked(p) <==> Complete(p)
  {
  }

  /** Five different places are all places. */
  lemma AllPlaces(a: nat, b: nat, c: nat, d: nat, e: nat)
    requires a < 5 && b < 5 && c < 5 && d < 5 && e < 5
    requires a != b && a != c && a != d && a != e && b != c && b != d && b != e && c != d && c != e && d != e
    ensures forall i: nat :: i < 5 ==> i in [a, b, c, d, e]
  {
  }

  lemma PlaceOf(packages: seq<LockedPackage>, kind: Kind) returns (i: nat)
    requires HasKind(packages, kind)
    ensures i < |packages| && ManagedKind(packages[i].ref) == Some(kind)
  {
    i :| 0 <= i < |packages| && ManagedKind(packages[i].ref) == Some(kind);
  }

  /** Five packages of five kinds are one of each. */
  lemma OneOfEach(packages: seq<LockedPackage>)
    requires |packages| == 5 && AllKinds(packages)
    ensures DistinctKinds(packages) && forall i :: 0 <= i < 5 ==> ManagedKind(packages[i].ref).Some?
  {
    hide ManagedKind, HasKind;
    var a := PlaceOf(packages, BepInEx);
    var b := PlaceOf(packages, VampireCommandFramework);
    var c := PlaceOf(packages, Kindred);
    var d := PlaceOf(packages, HookDOTS);
    var e := PlaceOf(packages, Satisvampory);
    AllPlaces(a, b, c, d, e);
    hide AllKinds;
    forall i: nat, k: nat | i < 5 && k < 5
      ensures ManagedKind(packages[i].ref).Some?
      ensures i != k ==> ManagedKind(packages[i].ref) != ManagedKind(packages[k].ref)
    {
      assert i in [a, b, c, d, e] && k in [a, b, c, d, e];
    }
  }

  lemma KindsMean(packages: seq<LockedPackage>)
    ensures HasKind(packages, BepInEx) <==> HasPackage(packages, "BepInEx", "BepInExPack_V_Rising")
    ensures HasKind(packages, VampireCommandFramework) <==> HasPackage(packages, "deca", "VampireCommandFramework")
    ensures HasKind(packages, Kindred) <==> HasPackage(packages, "odjit", "KindredCommands")
    ensures HasKind(packages, HookDOTS) <==> HasPackage(packages, "cheesasaurus", "HookDOTS_API")
    ensures HasKind(packages, Satisvampory) <==> HasPackage(packages, "Team_GreenEye", "Satisvampory")
  {
  }

  lemma AllKindsMean(packages: seq<LockedPackage>)
    ensures AllKinds(packages) <==>
      && HasKind(packages, BepInEx) && HasKind(packages, VampireCommandFramework) && HasKind(packages, Kindred)
      && HasKind(packages, HookDOTS) && HasKind(packages, Satisvampory)
  {
    hide HasKind;
    if HasKind(packages, BepInEx) && HasKind(packages, VampireCommandFramework) && HasKind(packages, Kindred) &&
       HasKind(packages, HookDOTS) && HasKind(packages, Satisvampory) {
      forall kind: Kind
        ensures HasKind(packages, kind)
      {
        match kind {
          case BepInEx =>
          case VampireCommandFramework =>
          case Kindred =>
          case HookDOTS =>
          case Satisvampory =>
        }
      }
    }
  }

  /** What validation accepts: these packages, under their own digest, in canonical order. */
  lemma ValidLockMeans(lock: PackageLock)
    ensures ValidLock(lock) <==>
      && HoldsManagedPackages(lock) && lock.digest == PackageLockDigest(lock)
      && CanonicalOrder(lock.roots, LockedGraph(lock.packages)) == Ordered(RefsIn(lock.packages))
  {
    hide PackageLockDigest, CanonicalOrder, LockedGraph, ManagedKind, ManagedRoots, ValidLocked, Complete, Dotted,
      HasKind, HasPackage, HasRef, DistinctKinds, AllKinds;
    RootsMean(lock.roots);
    KindsMean(lock.packages);
    AllKindsMean(lock.packages);
    forall i | 0 <= i < |lock.packages|
      ensures ValidLocked(lock.packages[i]) <==> Complete(lock.packages[i])
    {
      CompleteMeans(lock.packages[i]);
    }
    if |lock.roots| == 2 {
      RefMeans(lock.packages, lock.roots[0]);
      RefMeans(lock.packages, lock.roots[1]);
    }
    if |lock.packages| == 5 && AllKinds(lock.packages) {
      OneOfEach(lock.packages);
    }
  }

  lemma RefMeans(packages: seq<LockedPackage>, ref: PackageRef)
    ensures ref in RefsIn(packages) <==> HasRef(packages, ref)
  {
    if ref in RefsIn(packages) {
      var i :| 0 <= i < |packages| && RefsIn(packages)[i] == ref;
    }
    if i :| 0 <= i < |packages| && packages[i].ref == ref {
      assert RefsIn(packages)[i] == ref;
    }
  }

  lemma RootsMean(roots: seq<PackageRef>)
    ensures ManagedRoots(roots) <==>
      && |roots| == 2
      && roots[0].namespace == "odjit" && roots[0].name == "KindredCommands" && Dotted(roots[0].version)
      && roots[1].namespace == "Team_GreenEye" && roots[1].name == "Satisvampory" && Dotted(roots[1].version)
  {
    if |roots| == 2 {
      VersionMeans(roots[0].version);
      VersionMeans(roots[1].version);
    }
    hide IsSemanticVersion, Dotted;
  }

  lemma KindsDistinguish(packages: seq<LockedPackage>)
    requires DistinctKinds(packages)
    ensures DistinctRefs(packages)
  {
    hide ManagedKind;
  }

  lemma RootsDecided(a: seq<PackageRef>, b: seq<PackageRef>)
    requires ManagedRoots(a) && ManagedRoots(b) && multiset(a) == multiset(b)
    ensures a == b
  {
    hide ManagedKind, IsSemanticVersion;
    SameItems(a, b);
    assert a[0] in b && a[1] in b;
  }

  /** Covering packages have the same dependencies, package by package. */
  lemma CoveredGraph(a: seq<LockedPackage>, b: seq<LockedPackage>)
    requires DistinctRefs(a) && DistinctRefs(b) && Covers(a, b)
    ensures forall ref :: ref in LockedGraph(a) ==> ref in LockedGraph(b)
    ensures forall ref, d :: ref in LockedGraph(a) && d in LockedGraph(a)[ref] ==> d in LockedGraph(b)[ref]
  {
    forall ref | ref in LockedGraph(a)
      ensures ref in LockedGraph(b) && forall d :: d in LockedGraph(a)[ref] ==> d in LockedGraph(b)[ref]
    {
      var i :| 0 <= i < |a| && RefsIn(a)[i] == ref;
      var k :| 0 <= k < |b| && SamePackage(a[i], b[k]);
      assert a[i].ref == a[i].(dependencies := []).ref == b[k].(dependencies := []).ref == b[k].ref;
      LockedAt(a, i);
      LockedAt(b, k);
      hide LockedGraph;
      SameItems(a[i].dependencies, b[k].dependencies);
    }
  }

  /**
   * The digest decides the lock: two valid locks with one digest have the same roots, and the same
   * packages in the same order, up to the order in which each lists its dependencies.
   */
  lemma DigestDecidesLock(a: PackageLock, b: PackageLock)
    requires ValidLock(a) && ValidLock(b) && a.digest == b.digest
    ensures a.roots == b.roots
    ensures forall i :: 0 <= i < 5 ==> SamePackage(a.packages[i], b.packages[i])
  {
    KindsDistinguish(a.packages);
    KindsDistinguish(b.packages);
    hide PackageLockDigest, ManagedRoots, ManagedKind, ValidLocked, CanonicalOrder, LockedGraph, Covers, DistinctRefs,
      DistinctKinds, HasKind, SamePackage;
    DigestDecidesContent(a, b);
    RootsDecided(a.roots, b.roots);
    SameOrder(a.roots, a.packages, b.packages);
    SamePlaces(a.packages, b.packages);
  }

  lemma SameOrder(roots: seq<PackageRef>, a: seq<LockedPackage>, b: seq<LockedPackage>)
    requires DistinctRefs(a) && DistinctRefs(b) && Covers(a, b) && Covers(b, a)
    requires CanonicalOrder(roots, LockedGraph(a)) == Ordered(RefsIn(a))
    requires CanonicalOrder(roots, LockedGraph(b)) == Ordered(RefsIn(b))
    ensures RefsIn(a) == RefsIn(b)
  {
    hide CanonicalOrder, LockedGraph, Covers, DistinctRefs;
    CoveredGraph(a, b);
    CoveredGraph(b, a);
    OrderDependsOnSets(roots, LockedGraph(a), LockedGraph(b));
  }

  lemma SamePlaces(a: seq<LockedPackage>, b: seq<LockedPackage>)
    requires DistinctRefs(b) && Covers(a, b) && RefsIn(a) == RefsIn(b)
    ensures |a| == |b| && forall i :: 0 <= i < |a| ==> SamePackage(a[i], b[i])
  {
    assert |a| == |RefsIn(a)| && |b| == |RefsIn(b)|;
    forall i | 0 <= i < |a|
      ensures SamePackage(a[i], b[i])
    {
      hide RefsIn, SamePackage;
      var k :| 0 <= k < |b| && SamePackage(a[i], b[k]);
      SamePlace(a, b, i, k);
    }
  }

  lemma SamePlace(a: seq<LockedPackage>, b: seq<LockedPackage>, i: nat, k: nat)
    requires i < |a| && k < |b| && DistinctRefs(b) && RefsIn(a) == RefsIn(b) && SamePackage(a[i], b[k])
    ensures i == k
  {
    SameRefs(a[i], b[k]);
    hide SamePackage;
    assert RefsIn(a)[i] == RefsIn(b)[i] == a[i].ref;
    assert RefsIn(b)[k] == b[k].ref;
  }

  lemma SameRefs(a: LockedPackage, b: LockedPackage)
    requires SamePackage(a, b)
    ensures a.ref == b.ref
  {
    assert a.ref == a.(dependencies := []).ref == b.(dependencies := []).ref;
  }
}
