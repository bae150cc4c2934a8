/**
 * Depth-first post-order of a dependency graph: what graphResolver.visit and
 * canonicalPackageOrder walk. The walk succeeds exactly when no path from the roots leaves the
 * graph or meets itself, and then lists what is reachable, dependencies first.
 */
module Ordering {
  import opened Packages

  type Graph = map<PackageRef, seq<PackageRef>>

  datatype Outcome = Failed | Ordered(done: seq<PackageRef>)

  // ---- The walk ----

  function Unvisited(graph: Graph, trail: seq<PackageRef>): set<PackageRef> {
    set ref | ref in graph && ref !in trail
  }

  /** Visits `ref` below `trail`, the refs being visited, with `done` already in order. */
  function VisitOne(graph: Graph, trail: seq<PackageRef>, done: seq<PackageRef>, ref: PackageRef): Outcome
    decreases Unvisited(graph, trail), 1, 0
  {
    if ref in trail then Failed
    else if ref in done then Ordered(done)
    else if ref !in graph then Failed
    else
      assert ref in Unvisited(graph, trail) && ref !in Unvisited(graph, trail + [ref]);
      var below := VisitAll(graph, trail + [ref], done, graph[ref]);
      if below.Failed? then Failed else Ordered(below.done + [ref])
  }

  function VisitAll(graph: Graph, trail: seq<PackageRef>, done: seq<PackageRef>, refs: seq<PackageRef>): Outcome
    decreases Unvisited(graph, trail), 2, |refs|
  {
    if refs == [] then Ordered(done)
    else
      var first := VisitOne(graph, trail, done, refs[0]);
      if first.Failed? then Failed else VisitAll(graph, trail, first.done, refs[1..])
  }

  lemma VisitOneIs(graph: Graph, trail: seq<PackageRef>, done: seq<PackageRef>, ref: PackageRef)
    requires ref !in trail && ref !in done && ref in graph
    ensures var below := VisitAll(graph, trail + [ref], done, graph[ref]);
      VisitOne(graph, trail, done, ref) == if below.Failed? then Failed else Ordered(below.done + [ref])
  {
  }

  // ---- Paths ----

  /** A path: every ref but the last is in the graph and lists the next one. */
  predicate IsPath(graph: Graph, path: seq<PackageRef>) {
    path != [] && forall i :: 0 <= i < |path| - 1 ==> path[i] in graph && path[i + 1] in graph[path[i]]
  }

  function Last(path: seq<PackageRef>): PackageRef
    requires path != []
  {
    path[|path| - 1]
  }

  ghost predicate Reachable(graph: Graph, roots: seq<PackageRef>, ref: PackageRef) {
    exists path :: IsPath(graph, path) && path[0] in roots && Last(path) == ref
  }

  /** A path from a root that leaves the graph or comes back to one of its own refs. */
  predicate Broken(graph: Graph, roots: seq<PackageRef>, path: seq<PackageRef>) {
    IsPath(graph, path) && path[0] in roots && (Last(path) !in graph || Last(path) in path[..|path| - 1])
  }

  ghost predicate Sound(graph: Graph, roots: seq<PackageRef>) {
    forall path :: !Broken(graph, roots, path)
  }

  /** Every ref is listed once, after everything it depends on. */
  predicate DependenciesFirst(graph: Graph, done: seq<PackageRef>) {
    && (forall i, k :: 0 <= i < k < |done| ==> done[i] != done[k])
    && (forall i :: 0 <= i < |done| ==> done[i] in graph && forall ref :: ref in graph[done[i]] ==> ref in done[..i])
  }

  // ---- What a successful walk leaves ----

  ghost predicate Disjoint(a: seq<PackageRef>, b: seq<PackageRef>) {
    forall ref :: ref in a ==> ref !in b
  }

  /** The refs listed so far are kept, the new ones are reachable, and nothing being visited is listed. */
  ghost predicate Extends(graph: Graph, trail: seq<PackageRef>, done: seq<PackageRef>, refs: seq<PackageRef>,
                          more: seq<PackageRef>) {
    && done <= more && DependenciesFirst(graph, more) && Disjoint(trail, more)
    && (forall ref :: ref in refs ==> ref in more)
    && (forall ref :: ref in more && ref !in done ==> Reachable(graph, refs, ref))
  }

  lemma ReachableSelf(graph: Graph, roots: seq<PackageRef>, ref: PackageRef)
    requires ref in roots
    ensures Reachable(graph, roots, ref)
  {
    assert IsPath(graph, [ref]) && Last([ref]) == ref;
  }

  /** What is reachable from the dependencies of `ref` is reachable from `ref`. */
  lemma ReachableBelow(graph: Graph, roots: seq<PackageRef>, ref: PackageRef, below: PackageRef)
    requires ref in roots && ref in graph && Reachable(graph, graph[ref], below)
    ensures Reachable(graph, roots, below)
  {
    var path :| IsPath(graph, path) && path[0] in graph[ref] && Last(path) == below;
    var longer := [ref] + path;
    assert forall i :: 0 < i < |longer| ==> longer[i] == path[i - 1];
    assert IsPath(graph, longer) && Last(longer) == below;
  }

  lemma ReachableMore(graph: Graph, few: seq<PackageRef>, many: seq<PackageRef>, ref: PackageRef)
    requires Reachable(graph, few, ref) && forall r :: r in few ==> r in many
    ensures Reachable(graph, many, ref)
  {
    var path :| IsPath(graph, path) && path[0] in few && Last(path) == ref;
    assert path[0] in many;
  }

  lemma {:induction false} VisitOneExtends(graph: Graph, trail: seq<PackageRef>, done: seq<PackageRef>, ref: PackageRef)
    requires DependenciesFirst(graph, done) && Disjoint(trail, done) && VisitOne(graph, trail, done, ref).Ordered?
    ensures Extends(graph, trail, done, [ref], VisitOne(graph, trail, done, ref).done)
    decreases Unvisited(graph, trail), 1, 0
  {
    ReachableSelf(graph, [ref], ref);
    if ref !in done {
      assert ref in Unvisited(graph, trail) && ref !in Unvisited(graph, trail + [ref]);
      VisitAllExtends(graph, trail + [ref], done, graph[ref]);
      var below := VisitAll(graph, trail + [ref], done, graph[ref]).done;
      hide VisitAll, Reachable;
      ListedLast(graph, below, ref);
      forall r | r in below + [ref] && r !in done
        ensures Reachable(graph, [ref], r)
      {
        if r != ref {
          ReachableBelow(graph, [ref], ref, r);
        }
      }
      assert ref in trail + [ref];
      assert forall r :: r in trail ==> r in trail + [ref];
    }
  }

  lemma ListedLast(graph: Graph, done: seq<PackageRef>, ref: PackageRef)
    requires DependenciesFirst(graph, done) && ref in graph && ref !in done && forall r :: r in graph[ref] ==> r in done
    ensures DependenciesFirst(graph, done + [ref])
  {
    var more := done + [ref];
    forall i | 0 <= i < |more|
      ensures more[i] in graph && forall r :: r in graph[more[i]] ==> r in more[..i]
    {
      if i < |done| {
        assert more[..i] == done[..i];
      } else {
        assert more[..i] == done;
      }
    }
  }

  lemma {:induction false} VisitAllExtends(graph: Graph, trail: seq<PackageRef>, done: seq<PackageRef>,
                                           refs: seq<PackageRef>)
    requires DependenciesFirst(graph, done) && Disjoint(trail, done) && VisitAll(graph, trail, done, refs).Ordered?
    ensures Extends(graph, trail, done, refs, VisitAll(graph, trail, done, refs).done)
    decreases Unvisited(graph, trail), 2, |refs|
  {
    if refs != [] {
      VisitOneExtends(graph, trail, done, refs[0]);
      var first := VisitOne(graph, trail, done, refs[0]).done;
      VisitAllExtends(graph, trail, first, refs[1..]);
      var all := VisitAll(graph, trail, done, refs).done;
      hide VisitOne, VisitAll, Reachable, DependenciesFirst;
      forall ref | ref in all && ref !in done
        ensures Reachable(graph, refs, ref)
      {
        if ref in first {
          ReachableMore(graph, [refs[0]], refs, ref);
        } else {
          ReachableMore(graph, refs[1..], refs, ref);
        }
      }
      assert refs[0] in first && refs[0] in [refs[0]];
    }
  }

  // ---- What a failed walk met ----

  /** The trail is a path from a root, and `refs` come next. */
  predicate OnTrail(graph: Graph, roots: seq<PackageRef>, trail: seq<PackageRef>, refs: seq<PackageRef>) {
    if trail == [] then forall ref :: ref in refs ==> ref in roots
    else
      && IsPath(graph, trail) && trail[0] in roots && Last(trail) in graph
      && forall ref :: ref in refs ==> ref in graph[Last(trail)]
  }

  lemma TrailGrows(graph: Graph, roots: seq<PackageRef>, trail: seq<PackageRef>, ref: PackageRef)
    requires OnTrail(graph, roots, trail, [ref])
    ensures IsPath(graph, trail + [ref]) && (trail + [ref])[0] in roots && Last(trail + [ref]) == ref
  {
    assert ref in [ref];
    var path := trail + [ref];
    forall i | 0 <= i < |path| - 1
      ensures path[i] in graph && path[i + 1] in graph[path[i]]
    {
      if i < |trail| - 1 {
        assert path[i] == trail[i] && path[i + 1] == trail[i + 1];
      }
    }
  }

  lemma {:induction false} VisitOneMeets(graph: Graph, roots: seq<PackageRef>, trail: seq<PackageRef>,
                                         done: seq<PackageRef>,
                                         ref: PackageRef) returns (path: seq<PackageRef>)
    requires OnTrail(graph, roots, trail, [ref]) && VisitOne(graph, trail, done, ref).Failed?
    ensures Broken(graph, roots, path)
    decreases Unvisited(graph, trail), 1, 0
  {
    TrailGrows(graph, roots, trail, ref);
    path := trail + [ref];
    if ref in trail || ref !in graph {
      assert path[..|path| - 1] == trail;
    } else {
      assert ref in Unvisited(graph, trail) && ref !in Unvisited(graph, path);
      path := VisitAllMeets(graph, roots, path, done, graph[ref]);
    }
  }

  lemma {:induction false} VisitAllMeets(graph: Graph, roots: seq<PackageRef>, trail: seq<PackageRef>,
                                         done: seq<PackageRef>,
                                         refs: seq<PackageRef>) returns (path: seq<PackageRef>)
    requires OnTrail(graph, roots, trail, refs) && VisitAll(graph, trail, done, refs).Failed?
    ensures Broken(graph, roots, path)
    decreases Unvisited(graph, trail), 2, |refs|
  {
    var first := VisitOne(graph, trail, done, refs[0]);
    if first.Failed? {
      path := VisitOneMeets(graph, roots, trail, done, refs[0]);
    } else {
      path := VisitAllMeets(graph, roots, trail, first.done, refs[1..]);
    }
  }

  // ---- Exactness ----

  /** Along a path that starts in the list, the list is walked backwards. */
  lemma {:induction false} PathDescends(graph: Graph, done: seq<PackageRef>, path: seq<PackageRef>, i: nat)
      returns (at: seq<nat>)
    requires DependenciesFirst(graph, done) && IsPath(graph, path) && i < |path| && path[0] in done
    ensures |at| == i + 1 && (forall k :: 0 <= k <= i ==> at[k] < |done| && done[at[k]] == path[k])
    ensures forall k, l :: 0 <= k < l <= i ==> at[l] < at[k]
  {
    if i == 0 {
      var k :| 0 <= k < |done| && done[k] == path[0];
      at := [k];
    } else {
      var before := PathDescends(graph, done, path, i - 1);
      var k := before[i - 1];
      assert path[i - 1 + 1] in graph[done[k]];
      var l :| 0 <= l < |done[..k]| && done[..k][l] == path[i];
      at := before + [l];
    }
  }

  /** A list that holds the roots, dependencies first, holds everything reachable, and no path breaks. */
  lemma ListedIsSound(graph: Graph, roots: seq<PackageRef>, done: seq<PackageRef>, path: seq<PackageRef>)
    requires DependenciesFirst(graph, done) && (forall ref :: ref in roots ==> ref in done)
    requires IsPath(graph, path) && path[0] in roots
    ensures Last(path) in done && !Broken(graph, roots, path)
  {
    var at := PathDescends(graph, done, path, |path| - 1);
    forall k | 0 <= k < |path| - 1
      ensures path[k] != Last(path)
    {
      assert at[|path| - 1] < at[k];
    }
  }

  /**
   * The walk from the roots succeeds exactly when no path from them leaves the graph or meets
   * itself; then it lists exactly what is reachable, each once, dependencies first.
   */
  lemma WalkIsExact(graph: Graph, roots: seq<PackageRef>)
    ensures VisitAll(graph, [], [], roots).Ordered? <==> Sound(graph, roots)
    ensures VisitAll(graph, [], [], roots).Ordered? ==>
      var done := VisitAll(graph, [], [], roots).done;
      DependenciesFirst(graph, done) && forall ref :: ref in done <==> Reachable(graph, roots, ref)
  {
    hide VisitAll;
    if VisitAll(graph, [], [], roots).Ordered? {
      VisitAllExtends(graph, [], [], roots);
      var done := VisitAll(graph, [], [], roots).done;
      forall path | IsPath(graph, path) && path[0] in roots
        ensures Last(path) in done && !Broken(graph, roots, path)
      {
        ListedIsSound(graph, roots, done, path);
      }
    } else {
      var path := VisitAllMeets(graph, roots, [], [], roots);
    }
  }

  /** A path of at least one dependency from a ref back to itself. */
  predicate IsCycle(graph: Graph, path: seq<PackageRef>) {
    IsPath(graph, path) && |path| > 1 && path[0] == Last(path)
  }

  lemma CycleBreaks(graph: Graph, roots: seq<PackageRef>, path: seq<PackageRef>, cycle: seq<PackageRef>)
    requires IsPath(graph, path) && path[0] in roots && IsCycle(graph, cycle) && Last(path) == cycle[0]
    ensures Broken(graph, roots, path + cycle[1..])
  {
    var whole := path + cycle[1..];
    forall i | 0 <= i < |whole| - 1
      ensures whole[i] in graph && whole[i + 1] in graph[whole[i]]
    {
      if i >= |path| - 1 {
        assert whole[i] == cycle[i - |path| + 1] && whole[i + 1] == cycle[i - |path| + 2];
      }
    }
    assert Last(whole) == Last(cycle) == whole[|path| - 1];
    assert whole[..|whole| - 1][|path| - 1] == Last(whole);
  }

  /** Soundness in other words: everything reachable is in the graph, and on no cycle. */
  lemma SoundMeans(graph: Graph, roots: seq<PackageRef>)
    ensures Sound(graph, roots) <==>
      && (forall ref :: Reachable(graph, roots, ref) ==> ref in graph)
      && (forall cycle :: IsCycle(graph, cycle) ==> !Reachable(graph, roots, cycle[0]))
  {
    if Sound(graph, roots) {
      forall ref | Reachable(graph, roots, ref)
        ensures ref in graph
      {
        var path :| IsPath(graph, path) && path[0] in roots && Last(path) == ref;
        assert !Broken(graph, roots, path);
      }
      forall cycle | IsCycle(graph, cycle)
        ensures !Reachable(graph, roots, cycle[0])
      {
        if Reachable(graph, roots, cycle[0]) {
          var path :| IsPath(graph, path) && path[0] in roots && Last(path) == cycle[0];
          CycleBreaks(graph, roots, path, cycle);
        }
      }
    } else {
      var path :| Broken(graph, roots, path);
      if Last(path) in graph {
        var k :| 0 <= k < |path| - 1 && path[..|path| - 1][k] == Last(path);
        var cycle, start := path[k..], path[..k + 1];
        assert forall i :: 0 <= i < |cycle| ==> cycle[i] == path[k + i];
        assert IsCycle(graph, cycle);
        assert IsPath(graph, start) && Last(start) == cycle[0];
      } else {
        assert Reachable(graph, roots, Last(path));
      }
    }
  }

  // ---- The order depends only on what each package depends on ----

  /** A sorted list with adjacent repeats dropped. */
  function Compact(refs: seq<PackageRef>): seq<PackageRef> {
    if |refs| < 2 then refs
    else if refs[0] == refs[1] then Compact(refs[1..])
    else [refs[0]] + Compact(refs[1..])
  }

  lemma {:induction false} CompactHead(refs: seq<PackageRef>)
    ensures refs != [] ==> Compact(refs) != [] && Compact(refs)[0] == refs[0]
  {
    if |refs| >= 2 && refs[0] == refs[1] {
      CompactHead(refs[1..]);
    }
  }

  lemma {:induction false} CompactKeeps(refs: seq<PackageRef>)
    requires Packages.Sorted(Itself, refs)
    ensures forall ref :: ref in Compact(refs) <==> ref in refs
    ensures Packages.Sorted(Itself, Compact(refs)) && NoRepeats(Compact(refs))
  {
    hide RefLeq;
    CompactHead(refs);
    if |refs| >= 2 {
      CompactKeeps(refs[1..]);
      var rest := Compact(refs[1..]);
      forall k | 0 <= k < |rest|
        ensures RefLeq(refs[0], rest[k]) && (refs[0] != refs[1] ==> refs[0] != rest[k])
      {
        assert rest[k] in refs[1..];
        var i :| 0 <= i < |refs[1..]| && refs[1..][i] == rest[k];
        assert RefLeq(refs[0], refs[i + 1]);
        if i > 0 {
          assert RefLeq(refs[1], refs[i + 1]);
        }
        RefOrder(refs[0], refs[1], refs[0]);
      }
    }
  }

  /** Sorted lists of the same refs, however often repeated, are compacted to the same list. */
  lemma CompactDecided(a: seq<PackageRef>, b: seq<PackageRef>)
    requires Packages.Sorted(Itself, a) && Packages.Sorted(Itself, b) && forall ref :: ref in a <==> ref in b
    ensures Compact(a) == Compact(b)
  {
    CompactKeeps(a);
    CompactKeeps(b);
    assert KeyDecides(Itself, multiset(Compact(a)));
    hide *;
    SameMultiset(Compact(a), Compact(b));
    SortedUnique(Itself, Compact(a), Compact(b));
  }

  /** A ref that is listed already is passed over. */
  lemma {:induction false} CompactWalk(graph: Graph, trail: seq<PackageRef>, done: seq<PackageRef>,
                                       refs: seq<PackageRef>)
    requires DependenciesFirst(graph, done) && Disjoint(trail, done)
    ensures VisitAll(graph, trail, done, refs) == VisitAll(graph, trail, done, Compact(refs))
    decreases |refs|
  {
    if |refs| >= 2 {
      var first := VisitOne(graph, trail, done, refs[0]);
      CompactHead(refs[1..]);
      if first.Ordered? {
        VisitOneExtends(graph, trail, done, refs[0]);
        assert refs[0] in [refs[0]];
        hide VisitOne, VisitAll, Reachable, DependenciesFirst;
        CompactWalk(graph, trail, first.done, refs[1..]);
        PassedOver(graph, trail, done, refs, first.done);
      }
    }
  }

  lemma PassedOver(graph: Graph, trail: seq<PackageRef>, done: seq<PackageRef>, refs: seq<PackageRef>,
                   first: seq<PackageRef>)
    requires |refs| >= 2 && VisitOne(graph, trail, done, refs[0]) == Ordered(first)
    requires refs[0] in first && refs[0] !in trail && Compact(refs[1..]) != [] && Compact(refs[1..])[0] == refs[1]
    requires VisitAll(graph, trail, first, refs[1..]) == VisitAll(graph, trail, first, Compact(refs[1..]))
    ensures VisitAll(graph, trail, done, refs) == VisitAll(graph, trail, done, Compact(refs))
  {
    hide VisitOne;
    if refs[0] == refs[1] {
      assert VisitOne(graph, trail, first, refs[0]) == Ordered(first) by {
        PassesOver(graph, trail, first, refs[0]);
      }
      assert VisitAll(graph, trail, first, Compact(refs[1..])) ==
        VisitAll(graph, trail, first, Compact(refs[1..])[1..]);
    }
  }

  lemma PassesOver(graph: Graph, trail: seq<PackageRef>, done: seq<PackageRef>, ref: PackageRef)
    requires ref in done && ref !in trail
    ensures VisitOne(graph, trail, done, ref) == Ordered(done)
  {
  }

  /** The graphs have the same packages, each with the same dependencies, whatever their order or number. */
  ghost predicate SameDependencies(g: Graph, h: Graph) {
    && g.Keys == h.Keys
    && (forall ref :: ref in g ==> Packages.Sorted(Itself, g[ref]) && Packages.Sorted(Itself, h[ref]))
    && (forall ref, d :: ref in g ==> (d in g[ref] <==> d in h[ref]))
  }

  lemma {:induction false} SameWalkOne(g: Graph, h: Graph, trail: seq<PackageRef>, done: seq<PackageRef>,
                                       ref: PackageRef)
    requires SameDependencies(g, h) && DependenciesFirst(g, done) && DependenciesFirst(h, done) && Disjoint(trail, done)
    ensures VisitOne(g, trail, done, ref) == VisitOne(h, trail, done, ref)
    decreases Unvisited(g, trail), 1, 0
  {
    if ref !in trail && ref !in done && ref in g {
      assert ref in Unvisited(g, trail) && ref !in Unvisited(g, trail + [ref]);
      assert Disjoint(trail + [ref], done);
      CompactDecided(g[ref], h[ref]);
      hide DependenciesFirst, VisitAll;
      CompactWalk(g, trail + [ref], done, g[ref]);
      CompactWalk(h, trail + [ref], done, h[ref]);
      SameWalkAll(g, h, trail + [ref], done, Compact(g[ref]));
    }
  }

  lemma {:induction false} SameWalkAll(g: Graph, h: Graph, trail: seq<PackageRef>, done: seq<PackageRef>,
                                       refs: seq<PackageRef>)
    requires SameDependencies(g, h) && DependenciesFirst(g, done) && DependenciesFirst(h, done) && Disjoint(trail, done)
    ensures VisitAll(g, trail, done, refs) == VisitAll(h, trail, done, refs)
    decreases Unvisited(g, trail), 2, |refs|
  {
    if refs != [] {
      SameWalkOne(g, h, trail, done, refs[0]);
      var first := VisitOne(g, trail, done, refs[0]);
      if first.Ordered? {
        VisitOneExtends(g, trail, done, refs[0]);
        VisitOneExtends(h, trail, done, refs[0]);
        hide VisitOne, DependenciesFirst, Reachable, SameDependencies;
        SameWalkAll(g, h, trail, first.done, refs[1..]);
      }
    }
  }

  /** A graph that agrees on everything a successful walk lists gives the same list. */
  lemma {:induction false} AgreeingOne(g: Graph, h: Graph, trail: seq<PackageRef>, done: seq<PackageRef>,
                                       ref: PackageRef)
    requires VisitOne(g, trail, done, ref).Ordered?
    requires forall r :: r in VisitOne(g, trail, done, ref).done && r !in done ==> r in h && r in g && h[r] == g[r]
    requires h.Keys <= g.Keys
    ensures VisitOne(h, trail, done, ref) == VisitOne(g, trail, done, ref)
    decreases Unvisited(g, trail), 1, 0
  {
    if ref !in done {
      assert ref in Unvisited(g, trail) && ref !in Unvisited(g, trail + [ref]);
      AgreeingAll(g, h, trail + [ref], done, g[ref]);
    }
  }

  lemma {:induction false} AgreeingAll(g: Graph, h: Graph, trail: seq<PackageRef>, done: seq<PackageRef>,
                                       refs: seq<PackageRef>)
    requires VisitAll(g, trail, done, refs).Ordered?
    requires forall r :: r in VisitAll(g, trail, done, refs).done && r !in done ==> r in h && r in g && h[r] == g[r]
    requires h.Keys <= g.Keys
    ensures VisitAll(h, trail, done, refs) == VisitAll(g, trail, done, refs)
    decreases Unvisited(g, trail), 2, |refs|
  {
    if refs != [] {
      var first := VisitOne(g, trail, done, refs[0]).done;
      VisitKeeps(g, trail, done, refs[0]);
      WalkKeeps(g, trail, first, refs[1..]);
      AgreeingOne(g, h, trail, done, refs[0]);
      AgreeingAll(g, h, trail, first, refs[1..]);
    }
  }

  lemma {:induction false} WalkKeeps(g: Graph, trail: seq<PackageRef>, done: seq<PackageRef>, refs: seq<PackageRef>)
    ensures VisitAll(g, trail, done, refs).Ordered? ==> done <= VisitAll(g, trail, done, refs).done
    decreases Unvisited(g, trail), 2, |refs|
  {
    if refs != [] {
      VisitKeeps(g, trail, done, refs[0]);
      var first := VisitOne(g, trail, done, refs[0]);
      if first.Ordered? {
        WalkKeeps(g, trail, first.done, refs[1..]);
      }
    }
  }

  lemma {:induction false} VisitKeeps(g: Graph, trail: seq<PackageRef>, done: seq<PackageRef>, ref: PackageRef)
    ensures VisitOne(g, trail, done, ref).Ordered? ==> done <= VisitOne(g, trail, done, ref).done
    decreases Unvisited(g, trail), 1, 0
  {
    if ref !in trail && ref !in done && ref in g {
      assert ref in Unvisited(g, trail) && ref !in Unvisited(g, trail + [ref]);
      WalkKeeps(g, trail + [ref], done, g[ref]);
    }
  }
}
