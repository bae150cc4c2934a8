/**
 * Thunderstore: the resolution of a package graph against an index, and the canonical order that
 * every lock must match. The index is what the metadata endpoint answers for each reference.
 */
module Resolver {
  import opened Prelude
  import opened Packages
  import opened Ordering

  // ---- The index ----

  datatype Dependency = Malformed(text: string) | Reference(ref: PackageRef)

  datatype Metadata = Metadata(
    identity: PackageRef,
    fullName: string,
    isActive: bool,
    dependencies: Option<seq<Dependency>>,   // None: absent or null
    fileSize: int,
    downloadURL: string,
    isHTTPS: bool)

  datatype ResolvedPackage = ResolvedPackage(
    ref: PackageRef,
    fullName: string,
    downloadURL: string,
    fileSize: int,
    isActive: bool,
    dependencies: seq<PackageRef>)

  function VersionFullName(ref: PackageRef): string {
    ref.namespace + "-" + ref.name + "-" + ref.version
  }

  /** validateMetadata. */
  predicate ValidMetadata(ref: PackageRef, m: Metadata) {
    m.identity == ref && m.fullName == VersionFullName(ref) && m.isActive && m.dependencies.Some? && m.fileSize >= 0 &&
      m.isHTTPS
  }

  /** Valid metadata whose every dependency parses. */
  predicate Usable(ref: PackageRef, m: Metadata) {
    ValidMetadata(ref, m) && forall i :: 0 <= i < |m.dependencies.value| ==> m.dependencies.value[i].Reference?
  }

  function References(dependencies: seq<Dependency>): (refs: seq<PackageRef>)
    requires forall i :: 0 <= i < |dependencies| ==> dependencies[i].Reference?
    ensures |refs| == |dependencies| && forall i :: 0 <= i < |refs| ==> refs[i] == dependencies[i].ref
  {
    if dependencies == [] then [] else [dependencies[0].ref] + References(dependencies[1..])
  }

  type Index = map<PackageRef, Metadata>

  /** The dependency graph of an index: its usable packages. */
  function GraphOf(index: Index): Graph {
    map ref | ref in index && Usable(ref, index[ref]) :: SortRefs(References(index[ref].dependencies.value))
  }

  function PackageOf(ref: PackageRef, m: Metadata): ResolvedPackage
    requires Usable(ref, m)
  {
    ResolvedPackage(ref, m.fullName, m.downloadURL, m.fileSize, m.isActive, SortRefs(References(m.dependencies.value)))
  }

  // ---- Versions ----

  predicate Clash(a: PackageRef, b: PackageRef) {
    a.namespace == b.namespace && a.name == b.name && a.version != b.version
  }

  /** Two versions of one package are both reachable. */
  ghost predicate Conflicting(graph: Graph, roots: seq<PackageRef>) {
    exists a, b :: Clash(a, b) && Reachable(graph, roots, a) && Reachable(graph, roots, b)
  }

  /** Exactly the refs seen so far have a version, and each package only one. */
  predicate Versioned(trail: seq<PackageRef>, order: seq<PackageRef>, versions: map<(string, string), string>) {
    && (forall ref :: ref in trail + order ==> (ref.namespace, ref.name) in versions
                                               && versions[(ref.namespace, ref.name)] == ref.version)
    && (forall key :: key in versions ==> PackageRef(key.0, key.1, versions[key]) in trail + order)
  }

  // ---- The walk ----

  /** parseDependency for each dependency, in order. */
  method ParseDependencies(dependencies: seq<Dependency>) returns (ok: bool, refs: seq<PackageRef>)
    ensures ok <==> forall i :: 0 <= i < |dependencies| ==> dependencies[i].Reference?
    ensures ok ==> refs == References(dependencies)
  {
    refs := [];
    for i := 0 to |dependencies|
      invariant |refs| == i && forall k :: 0 <= k < i ==> dependencies[k].Reference? && refs[k] == dependencies[k].ref
    {
      if dependencies[i].Malformed? {
        return false, refs;
      }
      refs := refs + [dependencies[i].ref];
    }
    return true, refs;
  }

  class GraphResolver {
    const index: Index
    var visiting: set<PackageRef>
    var visited: set<PackageRef>
    var versions: map<(string, string), string>
    var packages: map<PackageRef, ResolvedPackage>
    ghost const graph: Graph
    ghost const roots: seq<PackageRef>
    ghost var order: seq<PackageRef>

    constructor (index: Index, ghost roots: seq<PackageRef>)
      ensures this.index == index && this.graph == GraphOf(index) && this.roots == roots
      ensures order == [] && Valid([])
    {
      this.index, this.graph, this.roots := index, GraphOf(index), roots;
      visiting, visited, versions, packages, order := {}, {}, map[], map[], [];
    }

    /** `trail` is being visited, `order` has been; packages hold what the index says. */
    ghost predicate Valid(trail: seq<PackageRef>)
      reads this
    {
      && Marked(visiting, trail) && Marked(visited, order) && packages.Keys == visited
      && Faithful(packages) && Versioned(trail, order, versions) && Seen(trail, order)
    }

    ghost predicate Marked(marks: set<PackageRef>, refs: seq<PackageRef>) {
      forall ref :: ref in marks <==> ref in refs
    }

    /** Recorded packages are what the index says. */
    ghost predicate Faithful(packages: map<PackageRef, ResolvedPackage>) {
      forall ref :: ref in packages ==>
        ref in index && Usable(ref, index[ref]) && packages[ref] == PackageOf(ref, index[ref])
    }

    /** What the visited part of the graph looks like. */
    ghost predicate Seen(trail: seq<PackageRef>, order: seq<PackageRef>) {
      && graph == GraphOf(index)
      && DependenciesFirst(graph, order) && Disjoint(trail, order)
      && forall ref :: ref in trail + order ==> Reachable(graph, roots, ref)
    }

    lemma MarkedIsSeen(trail: seq<PackageRef>, ref: PackageRef)
      requires Seen(trail, order) && OnTrail(graph, roots, trail, [ref]) && ref !in order
      ensures Seen(trail + [ref], order) && Reachable(graph, roots, ref)
    {
      TrailGrows(graph, roots, trail, ref);
      assert Reachable(graph, roots, ref);
      hide Reachable;
    }

    lemma ClashFound(trail: seq<PackageRef>, ref: PackageRef)
      requires Valid(trail) && OnTrail(graph, roots, trail, [ref])
      requires var key := (ref.namespace, ref.name); key in versions && versions[key] != ref.version
      ensures Conflicting(graph, roots)
    {
      TrailGrows(graph, roots, trail, ref);
      assert Reachable(graph, roots, ref);
      hide Reachable, Usable, PackageOf;
      assert Clash(ref, PackageRef(ref.namespace, ref.name, versions[(ref.namespace, ref.name)]));
    }

    /** visit: one package and everything below it, exactly as the ordered walk does. */
    method Visit(ref: PackageRef, ghost trail: seq<PackageRef>) returns (ok: bool)
      requires Valid(trail) && OnTrail(graph, roots, trail, [ref])
      modifies this
      ensures ok ==> Valid(trail) && VisitOne(graph, trail, old(order), ref) == Ordered(order)
      ensures !ok ==> VisitOne(graph, trail, old(order), ref).Failed? || Conflicting(graph, roots)
      decreases Unvisited(graph, trail), 2
    {
      hide Seen, VisitOne, Versioned, Marked, Faithful, Conflicting, OnTrail, Unvisited;
      var key := (ref.namespace, ref.name);
      if key in versions && versions[key] != ref.version {
        ClashFound(trail, ref);
        return false;
      }
      VersionRemembered(trail, ref);
      MarkedIsSeenAt(trail, ref);
      MarkMore(trail, ref);
      VisitOneStops(trail, ref);
      versions := versions[key := ref.version];
      if ref in visiting {
        return false;
      }
      if ref in visited {
        return true;
      }
      visiting := visiting + {ref};
      ok := VisitPackage(ref, trail);
    }

    lemma VersionRemembered(trail: seq<PackageRef>, ref: PackageRef)
      requires Versioned(trail, order, versions)
      requires var key := (ref.namespace, ref.name); key in versions ==> versions[key] == ref.version
      ensures var more := versions[(ref.namespace, ref.name) := ref.version];
        if ref in trail || ref in order then more == versions else Versioned(trail + [ref], order, more)
    {
      var more := versions[(ref.namespace, ref.name) := ref.version];
      if ref in trail || ref in order {
        assert ref in trail + order;
      } else {
        assert forall r :: r in trail + [ref] + order <==> r == ref || r in trail + order;
      }
    }

    lemma MarkedIsSeenAt(trail: seq<PackageRef>, ref: PackageRef)
      requires Seen(trail, order) && OnTrail(graph, roots, trail, [ref])
      ensures ref !in order ==> Seen(trail + [ref], order)
    {
      hide Seen, OnTrail;
      if ref !in order {
        MarkedIsSeen(trail, ref);
      }
    }

    lemma MarkMore(trail: seq<PackageRef>, ref: PackageRef)
      requires Marked(visiting, trail) && Marked(visited, order)
      ensures Marked(visiting + {ref}, trail + [ref])
      ensures (ref in visiting <==> ref in trail) && (ref in visited <==> ref in order)
    {
    }

    lemma VisitOneStops(trail: seq<PackageRef>, ref: PackageRef)
      ensures ref in trail ==> VisitOne(graph, trail, order, ref).Failed?
      ensures ref !in trail && ref in order ==> VisitOne(graph, trail, order, ref) == Ordered(order)
    {
    }

    /** The part of visit behind the mark: metadata, dependencies, and the package itself. */
    method VisitPackage(ref: PackageRef, ghost trail: seq<PackageRef>) returns (ok: bool)
      requires Valid(trail + [ref]) && OnTrail(graph, roots, trail, [ref]) && ref !in trail && ref !in order
      modifies this
      ensures ok ==> Valid(trail) && VisitOne(graph, trail, old(order), ref) == Ordered(order)
      ensures !ok ==> VisitOne(graph, trail, old(order), ref).Failed? || Conflicting(graph, roots)
      decreases Unvisited(graph, trail), 1
    {
      hide VisitAll, Reachable, DependenciesFirst, PackageOf, SortRefs, Versioned, Disjoint;
      if ref !in index || !ValidMetadata(ref, index[ref]) {
        return false;
      }
      var metadata := index[ref];
      var refs;
      ok, refs := ParseDependencies(metadata.dependencies.value);
      if !ok {
        return false;
      }
      var dependencies := SortRefs(refs);
      assert Usable(ref, metadata) && ref in graph && graph[ref] == dependencies;
      VisitOneIs(graph, trail, order, ref);
      assert DependenciesFirst(graph, order) && Disjoint(trail + [ref], order);
      ghost var before := order;
      hide VisitOne, GraphOf, Usable, References, Valid, OnTrail, Conflicting;
      ok := VisitDependencies(ref, trail, dependencies);
      if !ok {
        return false;
      }
      VisitAllExtends(graph, trail + [ref], before, dependencies);
      Record(ref, metadata, dependencies, trail);
    }

    lemma RecordedIsSeen(trail: seq<PackageRef>, ref: PackageRef)
      requires Seen(trail + [ref], order) && ref in graph && ref !in trail && forall d :: d in graph[ref] ==> d in order
      ensures Seen(trail, order + [ref])
    {
      assert ref in trail + [ref];
      hide Reachable;
      ListedLast(graph, order, ref);
      hide DependenciesFirst;
      assert forall r :: r in trail ==> r in trail + [ref];
    }

    lemma RecordedVersions(trail: seq<PackageRef>, ref: PackageRef)
      requires Versioned(trail + [ref], order, versions)
      ensures Versioned(trail, order + [ref], versions)
    {
      assert forall r :: r in trail + [ref] + order <==> r in trail + (order + [ref]);
    }

    /** The last lines of visit. */
    method Record(ref: PackageRef, metadata: Metadata, dependencies: seq<PackageRef>, ghost trail: seq<PackageRef>)
      requires Valid(trail + [ref]) && ref !in trail && ref in index && metadata == index[ref] && Usable(ref, metadata)
      requires ref in graph && graph[ref] == dependencies == SortRefs(References(metadata.dependencies.value))
      requires forall d :: d in dependencies ==> d in order
      modifies this
      ensures Valid(trail) && order == old(order) + [ref]
    {
      RecordedIsSeen(trail, ref);
      RecordedVersions(trail, ref);
      RecordedMarks(trail, ref);
      assert PackageOf(ref, metadata) ==
        ResolvedPackage(ref, metadata.fullName, metadata.downloadURL, metadata.fileSize,
                                                         metadata.isActive, dependencies);
      RecordedIsFaithful(ref);
      hide *;
      RecordAll(ref, metadata, dependencies);
      ValidIs(trail);
    }

    method RecordAll(ref: PackageRef, metadata: Metadata, dependencies: seq<PackageRef>)
      modifies this
      ensures visiting == old(visiting) - {ref} && visited == old(visited) + {ref}
      ensures versions == old(versions) && order == old(order) + [ref]
      ensures packages ==
        old(packages)[ref := ResolvedPackage(ref, metadata.fullName, metadata.downloadURL, metadata.fileSize,
                                                               metadata.isActive, dependencies)]
    {
      visiting := visiting - {ref};
      visited := visited + {ref};
      packages := packages[ref := ResolvedPackage(ref, metadata.fullName, metadata.downloadURL, metadata.fileSize,
                                                  metadata.isActive, dependencies)];
      order := order + [ref];
    }

    lemma ValidIs(trail: seq<PackageRef>)
      requires Marked(visiting, trail) && Marked(visited, order) && packages.Keys == visited
      requires Faithful(packages) && Versioned(trail, order, versions) && Seen(trail, order)
      ensures Valid(trail)
    {
      hide Marked, Faithful, Versioned, Seen;
    }

    lemma RecordedMarks(trail: seq<PackageRef>, ref: PackageRef)
      requires Marked(visiting, trail + [ref]) && Marked(visited, order) && ref !in trail
      ensures Marked(visiting - {ref}, trail) && Marked(visited + {ref}, order + [ref])
    {
    }

    lemma RecordedIsFaithful(ref: PackageRef)
      requires Faithful(packages) && ref in index && Usable(ref, index[ref])
      ensures Faithful(packages[ref := PackageOf(ref, index[ref])])
    {
      hide Usable, PackageOf;
    }

    /** The loop over the sorted dependencies. */
    method VisitDependencies(ref: PackageRef, ghost trail: seq<PackageRef>, dependencies: seq<PackageRef>)
        returns (ok: bool)
      requires Valid(trail + [ref]) && OnTrail(graph, roots, trail, [ref]) && ref !in trail
      requires ref in graph && graph[ref] == dependencies
      modifies this
      ensures ok ==> Valid(trail + [ref]) && VisitAll(graph, trail + [ref], old(order), dependencies) == Ordered(order)
      ensures !ok ==> VisitAll(graph, trail + [ref], old(order), dependencies).Failed? || Conflicting(graph, roots)
      decreases Unvisited(graph, trail), 0
    {
      ghost var below := trail + [ref];
      TrailGrows(graph, roots, trail, ref);
      assert ref in Unvisited(graph, trail) && ref !in Unvisited(graph, below);
      hide VisitOne, Conflicting, Valid, GraphOf, IsPath;
      var i := 0;
      while i < |dependencies|
        invariant 0 <= i <= |dependencies| && Valid(below)
        invariant VisitAll(graph, below, old(order), dependencies) == VisitAll(graph, below, order, dependencies[i..])
      {
        assert dependencies[i] in graph[ref];
        assert OnTrail(graph, roots, below, [dependencies[i]]);
        assert dependencies[i..][0] == dependencies[i] && dependencies[i..][1..] == dependencies[i + 1..];
        ok := Visit(dependencies[i], below);
        if !ok {
          return false;
        }
        i := i + 1;
      }
      return true;
    }
  }

  // ---- The canonical order ----

  function SortedGraph(packages: Graph): Graph {
    map ref | ref in packages :: SortRefs(packages[ref])
  }

  /** The order every lock must have: all packages, as the walk from the roots lists them. */
  function CanonicalOrder(roots: seq<PackageRef>, packages: Graph): Outcome {
    var walk := VisitAll(SortedGraph(packages), [], [], roots);
    if walk.Ordered? && |walk.done| == |packages| then walk else Failed
  }

  datatype Mark = Visiting | Visited

  /** The closure of canonicalPackageOrder: marks and the order so far. */
  class OrderWalk {
    const packages: Graph
    var states: map<PackageRef, Mark>
    var ordered: seq<PackageRef>

    constructor (packages: Graph)
      ensures this.packages == packages && ordered == [] && Valid([])
    {
      this.packages, states, ordered := packages, map[], [];
    }

    ghost predicate Valid(trail: seq<PackageRef>)
      reads this
    {
      && (forall ref :: ref in trail <==> ref in states && states[ref].Visiting?)
      && (forall ref :: ref in ordered <==> ref in states && states[ref].Visited?)
    }

    method Visit(ref: PackageRef, ghost trail: seq<PackageRef>) returns (ok: bool)
      requires Valid(trail)
      modifies this
      ensures ok ==> Valid(trail) && VisitOne(SortedGraph(packages), trail, old(ordered), ref) == Ordered(ordered)
      ensures !ok ==> VisitOne(SortedGraph(packages), trail, old(ordered), ref).Failed?
      decreases Unvisited(SortedGraph(packages), trail), 1, 0
    {
      ghost var graph := SortedGraph(packages);
      hide SortRefs, VisitAll;
      if ref in states {
        return states[ref].Visited?;
      }
      if ref !in packages {
        return false;
      }
      states := states[ref := Visiting];
      var dependencies := SortRefs(packages[ref]);
      ghost var below := trail + [ref];
      assert ref in Unvisited(graph, trail) && ref !in Unvisited(graph, below);
      VisitOneIs(graph, trail, ordered, ref);
      hide VisitOne, SortedGraph;
      assert Valid(below);
      ok := VisitAllRefs(dependencies, below);
      if !ok {
        return false;
      }
      assert ref in below;
      states := states[ref := Visited];
      ordered := ordered + [ref];
    }

    method VisitAllRefs(refs: seq<PackageRef>, ghost trail: seq<PackageRef>) returns (ok: bool)
      requires Valid(trail)
      modifies this
      ensures ok ==> Valid(trail) && VisitAll(SortedGraph(packages), trail, old(ordered), refs) == Ordered(ordered)
      ensures !ok ==> VisitAll(SortedGraph(packages), trail, old(ordered), refs).Failed?
      decreases Unvisited(SortedGraph(packages), trail), 2
    {
      hide SortedGraph, VisitOne;
      var i := 0;
      while i < |refs|
        invariant 0 <= i <= |refs| && Valid(trail)
        invariant VisitAll(SortedGraph(packages), trail, old(ordered), refs)
          == VisitAll(SortedGraph(packages), trail, ordered, refs[i..])
      {
        assert refs[i..][0] == refs[i] && refs[i..][1..] == refs[i + 1..];
        ok := Visit(refs[i], trail);
        if !ok {
          return false;
        }
        i := i + 1;
      }
      return true;
    }
  }

  /** canonicalPackageOrder. */
  method CanonicalPackageOrder(roots: seq<PackageRef>, packages: Graph) returns (ok: bool, ordered: seq<PackageRef>)
    ensures CanonicalOrder(roots, packages) == if ok then Ordered(ordered) else Failed
  {
    hide VisitAll;
    var walk := new OrderWalk(packages);
    ok := walk.VisitAllRefs(roots, []);
    ordered := walk.ordered;
    ok := ok && |ordered| == |packages|;
  }

  lemma SortedMembers(refs: seq<PackageRef>)
    ensures forall ref :: ref in SortRefs(refs) <==> ref in refs
    ensures Packages.Sorted(Itself, SortRefs(refs))
  {
    SortBySorts(Itself, refs);
    hide SortBy;
    SameItems(SortRefs(refs), refs);
  }

  /** Sorting the dependencies changes no path. */
  lemma SortedPaths(packages: Graph, roots: seq<PackageRef>)
    ensures Sound(SortedGraph(packages), roots) <==> Sound(packages, roots)
    ensures forall ref :: Reachable(SortedGraph(packages), roots, ref) <==> Reachable(packages, roots, ref)
    ensures forall done :: DependenciesFirst(SortedGraph(packages), done) <==> DependenciesFirst(packages, done)
  {
    var graph := SortedGraph(packages);
    forall ref | ref in packages
      ensures forall d :: d in graph[ref] <==> d in packages[ref]
    {
      SortedMembers(packages[ref]);
    }
    hide SortedGraph, SortRefs;
    forall path
      ensures IsPath(graph, path) <==> IsPath(packages, path)
    {
    }
    assert forall path :: Broken(graph, roots, path) <==> Broken(packages, roots, path);
  }

  lemma {:induction false} DistinctCount(done: seq<PackageRef>, refs: set<PackageRef>)
    requires NoRepeats(done) && forall ref :: ref in done ==> ref in refs
    ensures |done| <= |refs|
    ensures |done| == |refs| <==> forall ref :: ref in refs ==> ref in done
    decreases |done|
  {
    if done == [] {
      if refs != {} {
        var ref :| ref in refs;
        assert ref !in done;
      }
    } else {
      var rest := refs - {done[0]};
      assert refs == rest + {done[0]};
      DistinctCount(done[1..], rest);
      assert forall ref :: ref in done <==> ref == done[0] || ref in done[1..];
      assert (forall ref :: ref in refs ==> ref in done) <==> (forall ref :: ref in rest ==> ref in done[1..]);
    }
  }

  /**
   * canonicalPackageOrder fails exactly on a missing package, a cycle or a package no root
   * reaches; otherwise it lists every package once, dependencies first.
   */
  lemma CanonicalOrderExact(roots: seq<PackageRef>, packages: Graph)
    ensures CanonicalOrder(roots, packages).Ordered? <==>
      Sound(packages, roots) && forall ref :: ref in packages ==> Reachable(packages, roots, ref)
    ensures CanonicalOrder(roots, packages).Ordered? ==>
      var done := CanonicalOrder(roots, packages).done;
      DependenciesFirst(packages, done) && forall ref :: ref in done <==> ref in packages
  {
    WalkIsExact(SortedGraph(packages), roots);
    SortedPaths(packages, roots);
    hide VisitAll, Reachable, Sound, SortedGraph;
    var walk := VisitAll(SortedGraph(packages), [], [], roots);
    if walk.Ordered? {
      assert DependenciesFirst(packages, walk.done);
      DistinctCount(walk.done, packages.Keys);
    }
  }

  /** It depends only on the roots and on which packages each package depends on. */
  lemma OrderDependsOnSets(roots: seq<PackageRef>, g: Graph, h: Graph)
    requires g.Keys == h.Keys && forall ref, d :: ref in g ==> (d in g[ref] <==> d in h[ref])
    ensures CanonicalOrder(roots, g) == CanonicalOrder(roots, h)
  {
    var a, b := SortedGraph(g), SortedGraph(h);
    forall ref | ref in g
      ensures Packages.Sorted(Itself, a[ref]) && Packages.Sorted(Itself, b[ref]) && forall d :: d in a[ref] <==>
        d in b[ref]
    {
      SortedMembers(g[ref]);
      SortedMembers(h[ref]);
    }
    assert |g| == |h| by {
      assert |g.Keys| == |h.Keys|;
    }
    hide SortedGraph, SortRefs, Packages.Sorted, VisitAll;
    SameWalkAll(a, b, [], [], roots);
  }

  // ---- Resolve ----

  function DependenciesOf(packages: map<PackageRef, ResolvedPackage>): Graph {
    map ref | ref in packages :: packages[ref].dependencies
  }

  function RefsOf(packages: seq<ResolvedPackage>): (refs: seq<PackageRef>)
    ensures |refs| == |packages| && forall i :: 0 <= i < |refs| ==> refs[i] == packages[i].ref
  {
    if packages == [] then [] else [packages[0].ref] + RefsOf(packages[1..])
  }

  /** resolvedPackagesInCanonicalOrder. */
  method ResolvedPackagesInCanonicalOrder(roots: seq<PackageRef>, packages: map<PackageRef, ResolvedPackage>)
      returns (ok: bool, ordered: seq<ResolvedPackage>)
    ensures ok <==> && (forall ref :: ref in packages ==> packages[ref].ref == ref)
                    && CanonicalOrder(roots, DependenciesOf(packages)).Ordered?
    ensures ok ==>
      && CanonicalOrder(roots, DependenciesOf(packages)) == Ordered(RefsOf(ordered))
      && forall i :: 0 <= i < |ordered| ==> ordered[i].ref in packages && ordered[i] == packages[ordered[i].ref]
  {
    hide CanonicalOrder, Sound, Reachable, DependenciesFirst;
    ordered := [];
    var dependencies: Graph := map[];
    var rest := packages.Keys;
    while rest != {}
      invariant rest <= packages.Keys && dependencies.Keys == packages.Keys - rest
      invariant forall ref :: ref in dependencies ==>
        packages[ref].ref == ref && dependencies[ref] == packages[ref].dependencies
      decreases |rest|
    {
      var ref :| ref in rest;
      if packages[ref].ref != ref {
        return false, [];
      }
      dependencies := dependencies[ref := packages[ref].dependencies];
      rest := rest - {ref};
    }
    assert dependencies == DependenciesOf(packages);
    var order;
    ok, order := CanonicalPackageOrder(roots, dependencies);
    if !ok {
      return false, [];
    }
    CanonicalOrderExact(roots, dependencies);
    for i := 0 to |order|
      invariant |ordered| == i
      invariant forall k :: 0 <= k < i ==> order[k] in packages && ordered[k] == packages[order[k]]
    {
      assert order[i] in order;
      ordered := ordered + [packages[order[i]]];
    }
    assert RefsOf(ordered) == order;
  }

  /** Everything reachable is usable, on no cycle, and in one version. */
  ghost predicate Resolvable(index: Index, roots: seq<PackageRef>) {
    Sound(GraphOf(index), roots) && !Conflicting(GraphOf(index), roots)
  }

  /** The walk over the index lists its packages in their canonical order. */
  lemma WalkIsCanonical(index: Index, roots: seq<PackageRef>, order: seq<PackageRef>,
                        packages: map<PackageRef, ResolvedPackage>)
    requires VisitAll(GraphOf(index), [], [], roots) == Ordered(order)
    requires forall ref :: ref in packages <==> ref in order
    requires forall ref :: ref in packages ==>
      ref in index && Usable(ref, index[ref]) && packages[ref] == PackageOf(ref, index[ref])
    ensures CanonicalOrder(roots, DependenciesOf(packages)) == Ordered(order)
    ensures forall ref :: ref in packages ==> packages[ref].ref == ref
  {
    var g, h := GraphOf(index), SortedGraph(DependenciesOf(packages));
    WalkIsExact(g, roots);
    forall ref | ref in packages
      ensures ref in g && h[ref] == g[ref]
    {
      SortedAgain(References(index[ref].dependencies.value));
      hide SortRefs, Usable, References;
    }
    assert h.Keys == packages.Keys && |DependenciesOf(packages)| == |packages.Keys| by {
      assert DependenciesOf(packages).Keys == packages.Keys;
    }
    hide VisitAll, Sound, Reachable, Usable, GraphOf, PackageOf, SortedGraph, DependenciesOf;
    AgreeingAll(g, h, [], [], roots);
    DistinctCount(order, packages.Keys);
  }

  lemma SortedAgain(refs: seq<PackageRef>)
    ensures SortRefs(SortRefs(refs)) == SortRefs(refs)
  {
    SortBySorts(Itself, refs);
    hide SortBy;
    SortRefsPermuted(SortRefs(refs), refs);
  }

  /** The result is the closure of the roots: each reachable package once, as the index has it, dependencies first. */
  ghost predicate IsClosure(index: Index, roots: seq<PackageRef>, packages: seq<ResolvedPackage>) {
    && (forall ref :: ref in RefsOf(packages) <==> Reachable(GraphOf(index), roots, ref))
    && (forall i :: 0 <= i < |packages| ==>
          var ref := packages[i].ref;
          ref in index && Usable(ref, index[ref]) && packages[i] == PackageOf(ref, index[ref]))
    && DependenciesFirst(GraphOf(index), RefsOf(packages))
  }

  lemma NoConflictVisited(index: Index, roots: seq<PackageRef>, order: seq<PackageRef>,
                          versions: map<(string, string), string>)
    requires VisitAll(GraphOf(index), [], [], roots) == Ordered(order) && Versioned([], order, versions)
    ensures Resolvable(index, roots)
  {
    WalkIsExact(GraphOf(index), roots);
    hide VisitAll, Sound, Reachable, GraphOf, DependenciesFirst;
    forall a, b | Reachable(GraphOf(index), roots, a) && Reachable(GraphOf(index), roots, b)
      ensures !Clash(a, b)
    {
      assert a in [] + order && b in [] + order;
    }
  }

  /** The visit phase, over all roots. */
  method VisitRoots(resolver: GraphResolver, roots: seq<PackageRef>) returns (ok: bool)
    requires resolver.Valid([]) && resolver.order == [] && resolver.roots == roots
    modifies resolver
    ensures ok ==> resolver.Valid([]) && VisitAll(resolver.graph, [], [], roots) == Ordered(resolver.order)
    ensures !ok ==> VisitAll(resolver.graph, [], [], roots).Failed? || Conflicting(resolver.graph, roots)
  {
    hide resolver.Valid, Conflicting, VisitOne;
    var i := 0;
    while i < |roots|
      invariant 0 <= i <= |roots| && resolver.Valid([])
      invariant VisitAll(resolver.graph, [], [], roots) == VisitAll(resolver.graph, [], resolver.order, roots[i..])
    {
      assert roots[i..][0] == roots[i] && roots[i..][1..] == roots[i + 1..];
      ok := resolver.Visit(roots[i], []);
      if !ok {
        return false;
      }
      i := i + 1;
    }
    return true;
  }

  // ---- The same, said of the index ----

  /** Each ref but the last has metadata that lists the next one, whatever else is wrong with it. */
  predicate Chain(index: Index, path: seq<PackageRef>) {
    path != [] && forall i :: 0 <= i < |path| - 1 ==>
      && path[i] in index && index[path[i]].dependencies.Some?
      && Reference(path[i + 1]) in index[path[i]].dependencies.value
  }

  ghost predicate Needed(index: Index, roots: seq<PackageRef>, ref: PackageRef) {
    exists path :: Chain(index, path) && path[0] in roots && Last(path) == ref
  }

  /** What is asked of every package, field by field. */
  predicate Acceptable(index: Index, ref: PackageRef) {
    && ref in index
    && var m := index[ref];
       && m.identity.namespace == ref.namespace && m.identity.name == ref.name && m.identity.version == ref.version
       && m.fullName == ref.namespace + "-" + ref.name + "-" + ref.version
       && m.isActive && m.fileSize >= 0 && m.isHTTPS
       && m.dependencies.Some? && forall d :: d in m.dependencies.value ==> d.Reference?
  }

  /** No package below the roots depends on itself. */
  ghost predicate Acyclic(index: Index, roots: seq<PackageRef>) {
    forall path :: Chain(index, path) && path[0] in roots ==> Last(path) !in path[..|path| - 1]
  }

  ghost predicate OneVersion(index: Index, roots: seq<PackageRef>) {
    forall a, b :: Needed(index, roots, a) && Needed(index, roots, b) && a.namespace == b.namespace && a.name == b.name
      ==> a.version == b.version
  }

  ghost predicate AllAcceptable(index: Index, roots: seq<PackageRef>) {
    forall ref :: Needed(index, roots, ref) ==> Acceptable(index, ref)
  }

  /** What the index says of a package. */
  ghost predicate AsListed(index: Index, p: ResolvedPackage) {
    && p.ref in index
    && var m := index[p.ref];
       && m.dependencies.Some? && p.isActive
       && p.fullName == p.ref.namespace + "-" + p.ref.name + "-" + p.ref.version
       && p.downloadURL == m.downloadURL && p.fileSize == m.fileSize
       && Packages.Sorted(Itself, p.dependencies)
       && forall d :: d in p.dependencies <==> Reference(d) in m.dependencies.value
  }

  /** Each needed package once, behind everything that it depends on. */
  ghost predicate ListsNeeded(index: Index, roots: seq<PackageRef>, packages: seq<ResolvedPackage>) {
    && (forall i :: 0 <= i < |packages| ==> Needed(index, roots, packages[i].ref))
    && (forall ref :: Needed(index, roots, ref) ==> exists i :: 0 <= i < |packages| && packages[i].ref == ref)
    && (forall i, k :: 0 <= i < k < |packages| ==> packages[i].ref != packages[k].ref)
    && (forall i, d :: 0 <= i < |packages| && d in packages[i].dependencies ==>
          exists k :: 0 <= k < i && packages[k].ref == d)
  }

  lemma ReferencesMembers(dependencies: seq<Dependency>)
    requires forall i :: 0 <= i < |dependencies| ==> dependencies[i].Reference?
    ensures forall d :: d in SortRefs(References(dependencies)) <==> Reference(d) in dependencies
    ensures Packages.Sorted(Itself, SortRefs(References(dependencies)))
  {
    var refs := References(dependencies);
    SortedMembers(refs);
    hide SortRefs, References;
    forall d
      ensures d in refs <==> Reference(d) in dependencies
    {
      if d in refs {
        var i :| 0 <= i < |refs| && refs[i] == d;
        assert dependencies[i] == Reference(d);
      }
      if Reference(d) in dependencies {
        var i :| 0 <= i < |dependencies| && dependencies[i] == Reference(d);
        assert refs[i] == d;
      }
    }
  }

  /** The graph holds the acceptable packages, and leads where the index does. */
  lemma GraphMeans(index: Index, ref: PackageRef)
    ensures ref in GraphOf(index) <==> Acceptable(index, ref)
    ensures ref in GraphOf(index) ==>
      forall d :: d in GraphOf(index)[ref] <==> Reference(d) in index[ref].dependencies.value
  {
    if ref in index && index[ref].dependencies.Some? {
      var dependencies := index[ref].dependencies.value;
      assert (forall i :: 0 <= i < |dependencies| ==> dependencies[i].Reference?)
        <==> forall d :: d in dependencies ==> d.Reference?;
      if Usable(ref, index[ref]) {
        ReferencesMembers(dependencies);
      }
    }
    hide SortRefs, References;
  }

  lemma {:induction false} ChainIsPath(index: Index, roots: seq<PackageRef>, path: seq<PackageRef>)
    requires Sound(GraphOf(index), roots) && Chain(index, path) && path[0] in roots
    ensures IsPath(GraphOf(index), path) && Last(path) in GraphOf(index) && Last(path) !in path[..|path| - 1]
    decreases |path|
  {
    hide GraphOf;
    var shorter := path[..|path| - 1];
    if shorter != [] {
      ChainIsPath(index, roots, shorter);
      GraphMeans(index, Last(shorter));
    }
    assert !Broken(GraphOf(index), roots, path);
  }

  lemma PathIsChain(index: Index, path: seq<PackageRef>)
    requires IsPath(GraphOf(index), path)
    ensures Chain(index, path)
  {
    hide GraphOf;
    forall i | 0 <= i < |path| - 1
      ensures path[i] in index && index[path[i]].dependencies.Some?
      ensures Reference(path[i + 1]) in index[path[i]].dependencies.value
    {
      GraphMeans(index, path[i]);
    }
  }

  lemma ReachableIsNeeded(index: Index, roots: seq<PackageRef>, ref: PackageRef)
    ensures Reachable(GraphOf(index), roots, ref) ==> Needed(index, roots, ref)
    ensures Sound(GraphOf(index), roots) && Needed(index, roots, ref) ==> Reachable(GraphOf(index), roots, ref)
  {
    hide GraphOf, Sound;
    if Reachable(GraphOf(index), roots, ref) {
      var path :| IsPath(GraphOf(index), path) && path[0] in roots && Last(path) == ref;
      PathIsChain(index, path);
    }
    if Sound(GraphOf(index), roots) && Needed(index, roots, ref) {
      var path :| Chain(index, path) && path[0] in roots && Last(path) == ref;
      ChainIsPath(index, roots, path);
    }
  }

  /** A sound graph is one without an unacceptable package and without a cycle below the roots. */
  lemma SoundIsAcceptable(index: Index, roots: seq<PackageRef>)
    ensures Sound(GraphOf(index), roots) <==> AllAcceptable(index, roots) && Acyclic(index, roots)
  {
    hide GraphOf, Acceptable;
    if Sound(GraphOf(index), roots) {
      forall path | Chain(index, path) && path[0] in roots
        ensures Acceptable(index, Last(path)) && Last(path) !in path[..|path| - 1]
      {
        ChainIsPath(index, roots, path);
        GraphMeans(index, Last(path));
      }
    }
    if AllAcceptable(index, roots) && Acyclic(index, roots) {
      forall path
        ensures !Broken(GraphOf(index), roots, path)
      {
        if IsPath(GraphOf(index), path) && path[0] in roots {
          PathIsChain(index, path);
          assert Needed(index, roots, Last(path));
          GraphMeans(index, Last(path));
        }
      }
    }
  }

  /** Resolution succeeds on exactly the indexes whose needed packages are acceptable, acyclic and of one version. */
  lemma ResolvableMeans(index: Index, roots: seq<PackageRef>)
    ensures Resolvable(index, roots) <==>
      AllAcceptable(index, roots) && Acyclic(index, roots) && OneVersion(index, roots)
  {
    SoundIsAcceptable(index, roots);
    var graph := GraphOf(index);
    forall ref
      ensures Reachable(graph, roots, ref) ==> Needed(index, roots, ref)
      ensures Sound(graph, roots) && Needed(index, roots, ref) ==> Reachable(graph, roots, ref)
    {
      ReachableIsNeeded(index, roots, ref);
    }
    hide GraphOf, Sound, Reachable, Needed, AllAcceptable, Acyclic;
    if Sound(graph, roots) && !Conflicting(graph, roots) {
      forall a, b | Needed(index, roots, a) && Needed(index, roots, b) && a.namespace == b.namespace && a.name == b.name
        ensures a.version == b.version
      {
        assert !Clash(a, b);
      }
    }
  }

  lemma ListedAs(index: Index, p: ResolvedPackage)
    requires p.ref in index && Usable(p.ref, index[p.ref]) && p == PackageOf(p.ref, index[p.ref])
    ensures AsListed(index, p) && p.ref in GraphOf(index) && p.dependencies == GraphOf(index)[p.ref]
  {
    ReferencesMembers(index[p.ref].dependencies.value);
    hide SortRefs, References, Packages.Sorted;
  }

  /** The closure, said of the index. */
  lemma ClosureMeans(index: Index, roots: seq<PackageRef>, packages: seq<ResolvedPackage>)
    requires Sound(GraphOf(index), roots) && IsClosure(index, roots, packages)
    ensures ListsNeeded(index, roots, packages)
    ensures forall i :: 0 <= i < |packages| ==> AsListed(index, packages[i])
  {
    var graph, refs := GraphOf(index), RefsOf(packages);
    forall i | 0 <= i < |packages|
      ensures AsListed(index, packages[i])
      ensures packages[i].ref in graph && packages[i].dependencies == graph[packages[i].ref]
    {
      ListedAs(index, packages[i]);
    }
    forall ref
      ensures Needed(index, roots, ref) <==> ref in refs
    {
      ReachableIsNeeded(index, roots, ref);
    }
    hide GraphOf, RefsOf, Needed, Reachable, Sound, Usable, PackageOf, AsListed;
    forall ref | Needed(index, roots, ref)
      ensures exists i :: 0 <= i < |packages| && packages[i].ref == ref
    {
      var i :| 0 <= i < |refs| && refs[i] == ref;
    }
    forall i, d | 0 <= i < |packages| && d in packages[i].dependencies
      ensures exists k :: 0 <= k < i && packages[k].ref == d
    {
      assert refs[i] == packages[i].ref;
      var k :| 0 <= k < |refs[..i]| && refs[..i][k] == d;
      assert packages[k].ref == d;
    }
    forall i, k | 0 <= i < k < |packages|
      ensures packages[i].ref != packages[k].ref
    {
      assert refs[i] != refs[k];
    }
  }

  /**
   * Resolve, from its roots on: it succeeds exactly when every needed package is acceptable, none
   * depends on itself and none is needed in two versions; it then returns the needed packages as
   * the index has them, in canonical order.
   */
  method Resolve(index: Index, roots: seq<PackageRef>) returns (ok: bool, packages: seq<ResolvedPackage>)
    ensures ok <==> AllAcceptable(index, roots) && Acyclic(index, roots) && OneVersion(index, roots)
    ensures ok ==> ListsNeeded(index, roots, packages)
    ensures ok ==> forall i :: 0 <= i < |packages| ==> AsListed(index, packages[i])
    ensures ok ==> VisitAll(GraphOf(index), [], [], roots) == Ordered(RefsOf(packages))
  {
    var resolver := new GraphResolver(index, roots);
    hide VisitAll, Sound, Conflicting, Reachable, GraphOf, DependenciesFirst, CanonicalOrder, Usable, PackageOf,
      IsClosure, DependenciesOf, RefsOf, Versioned, AllAcceptable, Acyclic, OneVersion, ListsNeeded, AsListed;
    ResolvableMeans(index, roots);
    WalkIsExact(GraphOf(index), roots);
    ok := VisitRoots(resolver, roots);
    if !ok {
      return false, [];
    }
    NoConflictVisited(index, roots, resolver.order, resolver.versions);
    WalkIsCanonical(index, roots, resolver.order, resolver.packages);
    ok, packages := ResolvedPackagesInCanonicalOrder(roots, resolver.packages);
    if !ok {
      assert false;
    }
    ClosureIs(index, roots, resolver.order, resolver.packages, packages);
    ClosureMeans(index, roots, packages);
  }

  lemma ClosureIs(index: Index, roots: seq<PackageRef>, order: seq<PackageRef>,
                  visited: map<PackageRef, ResolvedPackage>,
                  packages: seq<ResolvedPackage>)
    requires forall ref :: ref in order <==> Reachable(GraphOf(index), roots, ref)
    requires DependenciesFirst(GraphOf(index), order) && RefsOf(packages) == order
    requires forall ref :: ref in visited ==>
      ref in index && Usable(ref, index[ref]) && visited[ref] == PackageOf(ref, index[ref])
    requires forall i :: 0 <= i < |packages| ==> packages[i].ref in visited && packages[i] == visited[packages[i].ref]
    ensures IsClosure(index, roots, packages)
  {
    hide Reachable, GraphOf, DependenciesFirst, Usable, PackageOf;
  }
}
