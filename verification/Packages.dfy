/** Package references, their order, locks, and the digest of a lock's content. */
module Packages {
  datatype PackageRef = PackageRef(namespace: string, name: string, version: string)

  datatype LockedPackage = LockedPackage(
    ref: PackageRef,
    fullName: string,
    downloadURL: string,
    fileSize: int,
    sha256: string,
    dependencies: seq<PackageRef>)

  /** What PackageLockDigest hashes: sorted roots, and packages sorted by reference with sorted dependencies. */
  datatype CanonicalLock = CanonicalLock(roots: seq<PackageRef>, packages: seq<LockedPackage>)

  /** An injective digest; `NoDigest` is the empty string, `OtherDigest` any other text. */
  datatype LockDigest = NoDigest | OtherDigest(text: string) | DigestOf(canonical: CanonicalLock)

  datatype PackageLock = PackageLock(
    roots: seq<PackageRef>,
    packages: seq<LockedPackage>,
    digest: LockDigest,
    resolvedAt: int)

  // ---- Order ----

  /** strings.Compare(a, b) <= 0, byte by byte. */
  predicate StringLeq(a: string, b: string) {
    a == "" || (b != "" && (a[0] < b[0] || (a[0] == b[0] && StringLeq(a[1..], b[1..]))))
  }

  /** comparePackageRefs(a, b) <= 0. */
  predicate RefLeq(a: PackageRef, b: PackageRef) {
    if a.namespace != b.namespace then StringLeq(a.namespace, b.namespace)
    else if a.name != b.name then StringLeq(a.name, b.name)
    else StringLeq(a.version, b.version)
  }

  lemma {:induction false} StringOrder(a: string, b: string, c: string)
    ensures StringLeq(a, a)
    ensures StringLeq(a, b) || StringLeq(b, a)
    ensures StringLeq(a, b) && StringLeq(b, a) ==> a == b
    ensures StringLeq(a, b) && StringLeq(b, c) ==> StringLeq(a, c)
    decreases |a| + |b| + |c|
  {
    var ta, tb, tc := if a == "" then "" else a[1..], if b == "" then "" else b[1..], if c == "" then "" else c[1..];
    if |a| + |b| + |c| > 0 {
      StringOrder(ta, tb, tc);
    }
    if a != "" && b != "" && a[0] == b[0] && ta == tb {
      assert a == [a[0]] + ta && b == [b[0]] + tb;
    }
  }

  /** The order of references is total. */
  lemma RefOrder(a: PackageRef, b: PackageRef, c: PackageRef)
    ensures RefLeq(a, a)
    ensures RefLeq(a, b) || RefLeq(b, a)
    ensures RefLeq(a, b) && RefLeq(b, a) ==> a == b
    ensures RefLeq(a, b) && RefLeq(b, c) ==> RefLeq(a, c)
  {
    StringOrder(a.namespace, b.namespace, c.namespace);
    StringOrder(a.name, b.name, c.name);
    StringOrder(a.version, b.version, c.version);
    hide StringLeq;
  }

  // ---- Sorting ----

  function Itself(ref: PackageRef): PackageRef {
    ref
  }

  function RefOf(p: LockedPackage): PackageRef {
    p.ref
  }

  predicate Sorted<T>(key: T -> PackageRef, items: seq<T>) {
    forall i, k :: 0 <= i < k < |items| ==> RefLeq(key(items[i]), key(items[k]))
  }

  function Insert<T>(key: T -> PackageRef, item: T, items: seq<T>): seq<T> {
    if items == [] || RefLeq(key(item), key(items[0])) then [item] + items
    else [items[0]] + Insert(key, item, items[1..])
  }

  /** A sorted rearrangement, as sort.Slice produces one. */
  function SortBy<T>(key: T -> PackageRef, items: seq<T>): seq<T> {
    if items == [] then [] else Insert(key, items[0], SortBy(key, items[1..]))
  }

  function SortRefs(refs: seq<PackageRef>): seq<PackageRef> {
    SortBy(Itself, refs)
  }

  lemma {:induction false} InsertSorts<T>(key: T -> PackageRef, item: T, items: seq<T>)
    requires Sorted(key, items)
    ensures Sorted(key, Insert(key, item, items))
    ensures multiset(Insert(key, item, items)) == multiset(items) + multiset{item}
  {
    hide RefLeq;
    if items == [] {
    } else if RefLeq(key(item), key(items[0])) {
      forall k | 0 <= k < |items|
        ensures RefLeq(key(item), key(items[k]))
      {
        RefOrder(key(item), key(items[0]), key(items[k]));
      }
    } else {
      InsertSorts(key, item, items[1..]);
      var rest := Insert(key, item, items[1..]);
      assert items == [items[0]] + items[1..];
      forall k | 0 <= k < |rest|
        ensures RefLeq(key(items[0]), key(rest[k]))
      {
        assert rest[k] in multiset(rest);
        RefOrder(key(item), key(items[0]), key(items[0]));
        if rest[k] != item {
          assert rest[k] in multiset(items[1..]);
          var i :| 0 <= i < |items[1..]| && items[1..][i] == rest[k];
          assert items[i + 1] == rest[k];
        }
      }
    }
  }

  lemma {:induction false} SortBySorts<T>(key: T -> PackageRef, items: seq<T>)
    ensures Sorted(key, SortBy(key, items))
    ensures multiset(SortBy(key, items)) == multiset(items)
    ensures |SortBy(key, items)| == |items|
  {
    hide RefLeq;
    if items != [] {
      SortBySorts(key, items[1..]);
      InsertSorts(key, items[0], SortBy(key, items[1..]));
      assert items == [items[0]] + items[1..];
      assert |multiset(SortBy(key, items))| == |multiset(items)|;
    }
  }

  /** The items of a collection are told apart by their keys. */
  ghost predicate KeyDecides<T(!new)>(key: T -> PackageRef, items: multiset<T>) {
    forall p, q :: p in items && q in items && key(p) == key(q) ==> p == q
  }

  lemma SmallestFirst<T(!new)>(key: T -> PackageRef, a: seq<T>, b: seq<T>)
    requires Sorted(key, a) && Sorted(key, b) && a != [] && multiset(a) == multiset(b)
    requires KeyDecides(key, multiset(a))
    ensures b != [] && a[0] == b[0]
  {
    hide RefLeq;
    assert a[0] in multiset(b);
    assert b != [];
    var i :| 0 <= i < |b| && b[i] == a[0];
    assert b[0] in multiset(a);
    var k :| 0 <= k < |a| && a[k] == b[0];
    RefOrder(key(a[0]), key(b[0]), key(b[0]));
    if i > 0 {
      assert RefLeq(key(b[0]), key(b[i]));
    }
    if k > 0 {
      assert RefLeq(key(a[0]), key(a[k]));
    }
  }

  lemma WithoutFirst<T>(items: seq<T>)
    requires items != []
    ensures items == [items[0]] + items[1..]
    ensures multiset(items[1..]) == multiset(items) - multiset{items[0]}
  {
    assert items == [items[0]] + items[1..];
  }

  /** There is one sorted arrangement of a multiset whose items are told apart by their keys. */
  lemma {:induction false} SortedUnique<T(!new)>(key: T -> PackageRef, a: seq<T>, b: seq<T>)
    requires Sorted(key, a) && Sorted(key, b) && multiset(a) == multiset(b)
    requires KeyDecides(key, multiset(a))
    ensures a == b
  {
    hide RefLeq;
    if a == [] {
      assert |multiset(b)| == 0;
    } else {
      SmallestFirst(key, a, b);
      WithoutFirst(a);
      WithoutFirst(b);
      assert Sorted(key, a[1..]) && Sorted(key, b[1..]);
      hide Sorted;
      SortedUnique(key, a[1..], b[1..]);
    }
  }

  lemma SortByPermuted<T(!new)>(key: T -> PackageRef, a: seq<T>, b: seq<T>)
    requires multiset(a) == multiset(b) && KeyDecides(key, multiset(a))
    ensures SortBy(key, a) == SortBy(key, b)
  {
    SortBySorts(key, a);
    SortBySorts(key, b);
    hide *;
    SortedUnique(key, SortBy(key, a), SortBy(key, b));
  }

  lemma SortRefsPermuted(a: seq<PackageRef>, b: seq<PackageRef>)
    requires multiset(a) == multiset(b)
    ensures SortRefs(a) == SortRefs(b)
  {
    hide SortBy;
    assert KeyDecides(Itself, multiset(a));
    SortByPermuted(Itself, a, b);
  }

  // ---- The digest ----

  function CanonicalPackage(p: LockedPackage): LockedPackage {
    p.(dependencies := SortRefs(p.dependencies))
  }

  /** Each package with its dependencies sorted, in the order given. */
  function Canonized(packages: seq<LockedPackage>): (result: seq<LockedPackage>)
    ensures |result| == |packages|
    ensures forall i :: 0 <= i < |packages| ==> result[i] == CanonicalPackage(packages[i])
  {
    if packages == [] then [] else [CanonicalPackage(packages[0])] + Canonized(packages[1..])
  }

  function Canonical(lock: PackageLock): CanonicalLock {
    CanonicalLock(SortRefs(lock.roots), SortBy(RefOf, Canonized(lock.packages)))
  }

  function PackageLockDigest(lock: PackageLock): LockDigest {
    DigestOf(Canonical(lock))
  }

  predicate DistinctRefs(packages: seq<LockedPackage>) {
    forall i, k :: 0 <= i < k < |packages| ==> packages[i].ref != packages[k].ref
  }

  /** Two packages differ at most in the order of their dependencies. */
  predicate SamePackage(a: LockedPackage, b: LockedPackage) {
    a.(dependencies := []) == b.(dependencies := []) && multiset(a.dependencies) == multiset(b.dependencies)
  }

  /** Every package of one list is, up to the order of its dependencies, in the other. */
  predicate Covers(a: seq<LockedPackage>, b: seq<LockedPackage>) {
    forall i :: 0 <= i < |a| ==> exists k :: 0 <= k < |b| && SamePackage(a[i], b[k])
  }

  /** Canonical forms are equal exactly when packages differ at most in dependency order. */
  lemma CanonicalPackageDecides(a: LockedPackage, b: LockedPackage)
    ensures CanonicalPackage(a) == CanonicalPackage(b) <==> SamePackage(a, b)
  {
    SortBySorts(Itself, a.dependencies);
    SortBySorts(Itself, b.dependencies);
    if multiset(a.dependencies) == multiset(b.dependencies) {
      SortRefsPermuted(a.dependencies, b.dependencies);
    }
    hide SortBy;
    if SamePackage(a, b) {
      assert a == b.(dependencies := a.dependencies);
    }
  }

  predicate NoRepeats<T(==)>(items: seq<T>) {
    forall i, k :: 0 <= i < k < |items| ==> items[i] != items[k]
  }

  lemma {:induction false} CountOnce<T>(items: seq<T>, item: T)
    requires NoRepeats(items)
    ensures multiset(items)[item] == if item in items then 1 else 0
  {
    if items != [] {
      WithoutFirst(items);
      CountOnce(items[1..], item);
    }
  }

  /** Lists without repeats that hold the same items are rearrangements of each other. */
  lemma SameMultiset<T(!new)>(a: seq<T>, b: seq<T>)
    requires NoRepeats(a) && NoRepeats(b)
    requires forall p :: p in a <==> p in b
    ensures multiset(a) == multiset(b)
  {
    hide *;
    forall p
      ensures multiset(a)[p] == multiset(b)[p]
    {
      CountOnce(a, p);
      CountOnce(b, p);
    }
  }

  lemma SameItems<T>(a: seq<T>, b: seq<T>)
    requires multiset(a) == multiset(b)
    ensures forall p :: p in a ==> p in b
    ensures forall p :: p in b ==> p in a
  {
    forall p
      ensures p in a <==> p in b
    {
      assert p in a <==> p in multiset(a);
      assert p in b <==> p in multiset(b);
    }
  }

  lemma CanonizedKeepsRefs(packages: seq<LockedPackage>)
    requires DistinctRefs(packages)
    ensures NoRepeats(Canonized(packages)) && KeyDecides(RefOf, multiset(Canonized(packages)))
  {
    hide SortRefs;
    var result := Canonized(packages);
    assert forall i :: 0 <= i < |packages| ==> result[i].ref == packages[i].ref;
    forall p, q | p in multiset(result) && q in multiset(result) && RefOf(p) == RefOf(q)
      ensures p == q
    {
      var i :| 0 <= i < |result| && result[i] == p;
      var k :| 0 <= k < |result| && result[k] == q;
      assert packages[i].ref == packages[k].ref;
    }
  }

  lemma CoveredInCanonicalForm(a: seq<LockedPackage>, b: seq<LockedPackage>)
    ensures Covers(a, b) <==> forall p :: p in Canonized(a) ==> p in Canonized(b)
  {
    hide CanonicalPackage, SamePackage;
    forall i, k | 0 <= i < |a| && 0 <= k < |b|
      ensures CanonicalPackage(a[i]) == CanonicalPackage(b[k]) <==> SamePackage(a[i], b[k])
    {
      CanonicalPackageDecides(a[i], b[k]);
    }
    if Covers(a, b) {
      forall p | p in Canonized(a)
        ensures p in Canonized(b)
      {
        var i :| 0 <= i < |a| && Canonized(a)[i] == p;
        var k :| 0 <= k < |b| && SamePackage(a[i], b[k]);
        assert Canonized(b)[k] == p;
      }
    }
    if forall p :: p in Canonized(a) ==> p in Canonized(b) {
      forall i | 0 <= i < |a|
        ensures exists k :: 0 <= k < |b| && SamePackage(a[i], b[k])
      {
        assert Canonized(a)[i] in Canonized(b);
        var k :| 0 <= k < |b| && Canonized(b)[k] == Canonized(a)[i];
      }
    }
  }

  /**
   * Lists of packages with distinct references have the same canonical arrangement exactly when
   * each covers the other.
   */
  lemma CanonicalArrangement(a: seq<LockedPackage>, b: seq<LockedPackage>)
    requires DistinctRefs(a) && DistinctRefs(b)
    ensures SortBy(RefOf, Canonized(a)) == SortBy(RefOf, Canonized(b)) <==> Covers(a, b) && Covers(b, a)
  {
    var ca, cb := Canonized(a), Canonized(b);
    CoveredInCanonicalForm(a, b);
    CoveredInCanonicalForm(b, a);
    CanonizedKeepsRefs(a);
    CanonizedKeepsRefs(b);
    SortBySorts(RefOf, ca);
    SortBySorts(RefOf, cb);
    hide *;
    if Covers(a, b) && Covers(b, a) {
      SameMultiset(ca, cb);
      SortByPermuted(RefOf, ca, cb);
    }
    if SortBy(RefOf, ca) == SortBy(RefOf, cb) {
      SameItems(ca, cb);
    }
  }

  /**
   * The digest is of content, not of order: two locks with distinct references have the same digest
   * exactly when one is a rearrangement of the other's roots, packages and dependencies.
   */
  lemma DigestDecidesContent(a: PackageLock, b: PackageLock)
    requires DistinctRefs(a.packages) && DistinctRefs(b.packages)
    ensures PackageLockDigest(a) == PackageLockDigest(b) <==>
      multiset(a.roots) == multiset(b.roots) && Covers(a.packages, b.packages) && Covers(b.packages, a.packages)
  {
    hide SortBy, Canonized, Covers, DistinctRefs;
    CanonicalArrangement(a.packages, b.packages);
    SortBySorts(Itself, a.roots);
    SortBySorts(Itself, b.roots);
    if multiset(a.roots) == multiset(b.roots) {
      SortRefsPermuted(a.roots, b.roots);
    }
  }
}
