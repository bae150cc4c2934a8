/** Vocabulary shared by every module: options, partial maps and slash-separated paths. */
module Prelude {
  datatype Option<+T> = None | Some(value: T)

  function Get<K, V>(m: map<K, V>, k: K): Option<V> {
    if k in m then Some(m[k]) else None
  }

  function Put<K, V>(m: map<K, V>, k: K, v: Option<V>): map<K, V> {
    if v.Some? then m[k := v.value] else m - {k}
  }

  function Lower(c: char): char {
    if 'A' <= c <= 'Z' then c - 'A' + 'a' else c
  }

  /** strings.EqualFold, for ASCII. */
  predicate EqualFold(a: string, b: string) {
    |a| == |b| && forall i :: 0 <= i < |a| ==> Lower(a[i]) == Lower(b[i])
  }

  /** Equal but for the case of the letters A to Z. */
  ghost predicate SameLetters(a: string, b: string) {
    && |a| == |b|
    && forall i :: 0 <= i < |a| ==>
         || a[i] == b[i]
         || ('A' <= a[i] <= 'Z' && b[i] as int == a[i] as int + 32)
         || ('A' <= b[i] <= 'Z' && a[i] as int == b[i] as int + 32)
  }

  lemma FoldMeans(a: string, b: string)
    ensures EqualFold(a, b) <==> SameLetters(a, b)
  {
  }

  lemma Associative<T>(a: seq<T>, b: seq<T>, c: seq<T>)
    ensures a + b + c == a + (b + c)
  {
  }

  /** bytes.IndexByte, with the length for a byte that is not there. */
  function IndexByte(s: string, c: char): (i: nat)
    ensures i <= |s| && (i < |s| ==> s[i] == c)
    ensures forall k :: 0 <= k < i ==> s[k] != c
  {
    if s == "" || s[0] == c then 0 else 1 + IndexByte(s[1..], c)
  }

  /** strings.Split: the pieces between separators; never empty. */
  function Split(s: string, sep: char): (parts: seq<string>)
    ensures |parts| >= 1
  {
    if s == "" then [""]
    else
      var rest := Split(s[1..], sep);
      if s[0] == sep then [""] + rest else [[s[0]] + rest[0]] + rest[1..]
  }

  function Join(parts: seq<string>, sep: char): string {
    if parts == [] then ""
    else if |parts| == 1 then parts[0]
    else parts[0] + [sep] + Join(parts[1..], sep)
  }

  /** Split is the inverse of Join, and no piece holds a separator. */
  lemma {:induction false} JoinSplit(s: string, sep: char)
    ensures Join(Split(s, sep), sep) == s
    ensures forall i :: 0 <= i < |Split(s, sep)| ==> sep !in Split(s, sep)[i]
  {
    if s != "" {
      JoinSplit(s[1..], sep);
      var rest := Split(s[1..], sep);
      if s[0] == sep {
        assert Split(s, sep)[1..] == rest;
      } else if |rest| > 1 {
        assert Split(s, sep)[1..] == rest[1..];
      }
    }
  }

  /** The pieces of `head/tail` are `head` and those of `tail`. */
  lemma {:induction false} SplitPart(head: string, tail: string, sep: char)
    requires sep !in head
    ensures Split(head + [sep] + tail, sep) == [head] + Split(tail, sep)
  {
    var s := head + [sep] + tail;
    if head == "" {
      assert s[1..] == tail;
    } else {
      SplitPart(head[1..], tail, sep);
      assert s[1..] == head[1..] + [sep] + tail && s[0] == head[0];
      assert [head[0]] + head[1..] == head;
    }
  }

  lemma {:induction false} SplitSingle(s: string, sep: char)
    requires sep !in s
    ensures Split(s, sep) == [s]
  {
    if s != "" {
      SplitSingle(s[1..], sep);
      assert [s[0]] + s[1..] == s;
    }
  }

  lemma {:induction false} JoinParts(a: seq<string>, b: seq<string>)
    requires a != [] && b != []
    ensures Join(a + b, '/') == Join(a, '/') + "/" + Join(b, '/')
  {
    if |a| == 1 {
      assert (a + b)[1..] == b;
      assert Join(a + b, '/') == a[0] + "/" + Join(b, '/');
    } else {
      JoinParts(a[1..], b);
      assert (a + b)[1..] == a[1..] + b;
      Associative(a[0] + "/", Join(a[1..], '/') + "/", Join(b, '/'));
      Associative(a[0] + "/", Join(a[1..], '/'), "/");
    }
  }

  /** The pieces of two paths joined by a slash. */
  lemma {:induction false} SplitParts(a: string, b: string)
    ensures Split(a + "/" + b, '/') == Split(a, '/') + Split(b, '/')
    decreases |a|
  {
    hide Split;
    if '/' !in a {
      SplitSingle(a, '/');
      SplitPart(a, b, '/');
    } else {
      var i := IndexByte(a, '/');
      var head, tail := a[..i], a[i + 1..];
      assert a == head + "/" + tail;
      SplitParts(tail, b);
      SplitPart(head, tail, '/');
      Associative(head + "/", tail + "/", b);
      Associative(head + "/", tail, "/");
      Associative(tail, "/", b);
      SplitPart(head, tail + "/" + b, '/');
      assert a + "/" + b == head + "/" + (tail + "/" + b);
      assert [head] + (Split(tail, '/') + Split(b, '/')) == [head] + Split(tail, '/') + Split(b, '/');
    }
  }

  /** relativePathParts: a non-empty relative path whose pieces are ordinary names. */
  predicate IsRelativePath(p: string) {
    var parts := Split(p, '/');
    p != "" && forall i :: 0 <= i < |parts| ==> parts[i] != "" && parts[i] != "." && parts[i] != ".."
  }

  /** A relative path of one piece: what a generation identifier must be. */
  predicate IsName(p: string) {
    IsRelativePath(p) && |Split(p, '/')| == 1
  }

  lemma NameHasNoSlash(p: string)
    requires IsName(p)
    ensures '/' !in p
  {
    JoinSplit(p, '/');
  }

  // ---- Paths, said of their text ----

  /** `part` is what stands between two slashes of `p`, or between one and an end. */
  ghost predicate IsPart(p: string, a: string, part: string, b: string) {
    && p == a + part + b && '/' !in part
    && (a != "" ==> a[|a| - 1] == '/') && (b != "" ==> b[0] == '/')
  }

  /** Nothing between its slashes is empty, one dot or two. */
  ghost predicate Ordinary(p: string) {
    p != "" && forall a, part, b :: IsPart(p, a, part, b) ==> part != "" && part != "." && part != ".."
  }

  lemma PartIsPiece(p: string, a: string, part: string, b: string) returns (i: nat)
    requires IsPart(p, a, part, b)
    ensures i < |Split(p, '/')| && Split(p, '/')[i] == part
  {
    hide Split;
    SplitSingle(part, '/');
    var front := part;
    i := 0;
    if a != "" {
      front := a[..|a| - 1] + "/" + part;
      SplitParts(a[..|a| - 1], part);
      i := |Split(a[..|a| - 1], '/')|;
      assert a == a[..|a| - 1] + "/";
    }
    assert Split(front, '/')[i] == part;
    if b == "" {
      assert p == front;
    } else {
      SplitParts(front, b[1..]);
      assert p == front + "/" + b[1..];
    }
  }

  lemma PieceIsPart(p: string, i: nat) returns (a: string, b: string)
    requires i < |Split(p, '/')|
    ensures IsPart(p, a, Split(p, '/')[i], b)
  {
    JoinSplit(p, '/');
    var parts := Split(p, '/');
    hide Split;
    a, b := "", "";
    var front, part, back := parts[..i], parts[i], parts[i + 1..];
    assert parts == front + ([part] + back) && [part][1..] == [];
    if front != [] {
      JoinParts(front, [part] + back);
      a := Join(front, '/') + "/";
    } else {
      assert parts == [part] + back;
    }
    if back != [] {
      JoinParts([part], back);
      b := "/" + Join(back, '/');
    } else {
      assert [part] + back == [part];
    }
  }

  /** What is accepted as a relative path. */
  lemma RelativePathMeans(p: string)
    ensures IsRelativePath(p) <==> Ordinary(p)
  {
    hide Split, IsPart;
    var parts := Split(p, '/');
    if IsRelativePath(p) {
      forall a, part, b | IsPart(p, a, part, b)
        ensures part != "" && part != "." && part != ".."
      {
        var i := PartIsPiece(p, a, part, b);
      }
    }
    if Ordinary(p) {
      forall i | 0 <= i < |parts|
        ensures parts[i] != "" && parts[i] != "." && parts[i] != ".."
      {
        var a, b := PieceIsPart(p, i);
      }
    }
  }

  /** A name is such a path without a slash. */
  lemma NameMeans(p: string)
    ensures IsName(p) <==> p != "" && p != "." && p != ".." && '/' !in p
  {
    if IsName(p) {
      NameHasNoSlash(p);
      SplitSingle(p, '/');
      assert Split(p, '/')[0] == p;
    } else if '/' !in p {
      SplitSingle(p, '/');
    }
  }
}
