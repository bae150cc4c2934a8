/**
 * The VDF parser: strings with escapes, objects whose keys are distinct up to letter case, and
 * the position that only moves forward. Bytes are characters; letter case is that of ASCII.
 */
module Vdf {
  import opened Prelude

  // ---- Trees ----

  /** An object in the order of its text. */
  datatype Entry = Entry(key: string, value: Value)
  datatype Value = Leaf(text: string) | Sub(entries: seq<Entry>)

  /** vdfNode: the same object as two maps. */
  datatype Node = Node(values: map<string, string>, children: map<string, Node>)

  function NodeOf(entries: seq<Entry>): Node
    decreases entries
  {
    if entries == [] then Node(map[], map[])
    else
      var node := NodeOf(entries[..|entries| - 1]);
      var last := entries[|entries| - 1];
      match last.value
      case Leaf(text) => node.(values := node.values[last.key := text])
      case Sub(inner) => node.(children := node.children[last.key := NodeOf(inner)])
  }

  predicate HasKey(entries: seq<Entry>, key: string) {
    exists i :: 0 <= i < |entries| && EqualFold(entries[i].key, key)
  }

  // ---- Reading, as a function of what is left ----

  predicate IsSpace(c: char) {
    c == ' ' || c == '\t' || c == '\r' || c == '\n'
  }

  function Skip(rest: string): (left: string)
    ensures |left| <= |rest|
  {
    if rest != "" && IsSpace(rest[0]) then Skip(rest[1..]) else rest
  }

  /** Spaces, tabs, carriage returns and newlines up to `to`, and something else there or nothing. */
  ghost predicate SpacesTo(data: string, from: nat, to: nat) {
    && from <= to <= |data|
    && (forall i :: from <= i < to ==> data[i] == ' ' || data[i] == '\t' || data[i] == '\r' || data[i] == '\n')
    && (to < |data| ==> data[to] != ' ' && data[to] != '\t' && data[to] != '\r' && data[to] != '\n')
  }

  datatype StringRead = NoString | StringRead(text: string, left: string)

  function Prepend(head: string, read: StringRead): StringRead {
    if read.NoString? then NoString else StringRead(head + read.text, read.left)
  }

  function Unescape(c: char): string {
    if c == '"' || c == '\\' then [c] else if c == 'n' then "\n" else if c == 't' then "\t" else ['\\', c]
  }

  /** The characters of a string behind its opening quote. */
  function Characters(rest: string): (read: StringRead)
    ensures read.StringRead? ==> |read.left| < |rest|
    decreases |rest|
  {
    if rest == "" then NoString
    else if rest[0] == '"' then StringRead("", rest[1..])
    else if rest[0] < ' ' then NoString
    else if rest[0] != '\\' then Prepend([rest[0]], Characters(rest[1..]))
    else if |rest| < 2 || rest[1] < ' ' then NoString
    else Prepend(Unescape(rest[1]), Characters(rest[2..]))
  }

  function ReadText(rest: string): (read: StringRead)
    ensures read.StringRead? ==> |read.left| < |rest|
  {
    if rest == "" || rest[0] != '"' then NoString else Characters(rest[1..])
  }

  datatype ObjectRead = NoObject | ObjectRead(entries: seq<Entry>, left: string)

  function ReadEntries(rest: string, before: seq<Entry>): (read: ObjectRead)
    ensures read.ObjectRead? ==> |read.left| < |rest|
    decreases |rest|
  {
    var start := Skip(rest);
    if start == "" then NoObject
    else if start[0] == '}' then ObjectRead(before, start[1..])
    else
      var key := ReadText(start);
      if key.NoString? || HasKey(before, key.text) then NoObject
      else
        var value := Skip(key.left);
        if value == "" then NoObject
        else if value[0] == '"' then
          var text := ReadText(value);
          if text.NoString? then NoObject else ReadEntries(text.left, before + [Entry(key.text, Leaf(text.text))])
        else if value[0] == '{' then
          var inner := ReadEntries(value[1..], []);
          if inner.NoObject? then NoObject else ReadEntries(inner.left, before + [Entry(key.text, Sub(inner.entries))])
        else NoObject
  }

  function ReadObject(rest: string): ObjectRead {
    if rest == "" || rest[0] != '{' then NoObject else ReadEntries(rest[1..], [])
  }

  // ---- The parser ----

  class VdfParser {
    const data: string
    var position: nat

    constructor (data: string)
      ensures this.data == data && position == 0
    {
      this.data, position := data, 0;
    }

    /** What is left to read. */
    ghost function Left(): string
      reads this
      requires position <= |data|
    {
      data[position..]
    }

    method SkipWhitespace()
      requires position <= |data|
      modifies this
      ensures old(position) <= position <= |data| && Left() == Skip(old(Left()))
      ensures SpacesTo(data, old(position), position)
    {
      while position < |data|
        invariant old(position) <= position <= |data|
        invariant forall i :: old(position) <= i < position ==> data[i] in [' ', '\t', '\r', '\n']
        invariant Skip(old(Left())) == Skip(Left())
      {
        if !IsSpace(data[position]) {
          return;
        }
        assert Left()[0] == data[position] && Left()[1..] == data[position + 1..];
        position := position + 1;
      }
    }

    method ReadString() returns (ok: bool, value: string)
      requires position <= |data|
      modifies this
      ensures old(position) <= position <= |data|
      ensures ok ==> ReadText(old(Left())) == StringRead(value, Left()) && old(position) < position
      ensures !ok ==> ReadText(old(Left())).NoString?
    {
      hide Unescape, Skip, IsSpace;
      value := "";
      if position >= |data| || data[position] != '"' {
        return false, "";
      }
      position := position + 1;
      ghost var start := Left();
      assert old(Left())[1..] == start;
      while position < |data|
        invariant old(position) < position <= |data|
        invariant Characters(start) == Prepend(value, Characters(Left()))
        decreases |data| - position
      {
        var character := data[position];
        ghost var left := Left();
        assert left[0] == character && left[1..] == data[position + 1..];
        position := position + 1;
        if character == '"' {
          return true, value;
        }
        if character < ' ' {
          return false, "";
        }
        if character != '\\' {
          Prepended(value, [character], Characters(Left()));
          value := value + [character];
          continue;
        }
        if position >= |data| {
          return false, "";
        }
        var escaped := data[position];
        assert left[1] == escaped && left[2..] == data[position + 1..];
        position := position + 1;
        if escaped < ' ' {
          return false, "";
        }
        Prepended(value, Unescape(escaped), Characters(Left()));
        value := value + Unescape(escaped);
      }
      return false, "";
    }

    /** One object, entry by entry; nested objects by recursion on what is left. */
    method ReadNode() returns (ok: bool, node: Node)
      requires position <= |data|
      modifies this
      ensures old(position) <= position <= |data|
      ensures ok ==> old(position) < position && ReadObject(old(Left())).ObjectRead?
      ensures ok ==> Left() == ReadObject(old(Left())).left && node == NodeOf(ReadObject(old(Left())).entries)
      ensures !ok ==> ReadObject(old(Left())).NoObject?
      decreases |data| - position
    {
      hide ReadText, Skip, NodeOf, SpacesTo;
      node := Node(map[], map[]);
      if position >= |data| || data[position] != '{' {
        return false, node;
      }
      assert Left()[0] == '{' && Left()[1..] == data[position + 1..];
      position := position + 1;
      ghost var start := Left();
      ghost var before: seq<Entry> := [];
      EmptyNode();
      while true
        invariant old(position) < position <= |data|
        invariant ReadEntries(start, []) == ReadEntries(Left(), before)
        invariant node == NodeOf(before)
        decreases |data| - position
      {
        ghost var rest := Left();
        SkipWhitespace();
        if position >= |data| {
          return false, node;
        }
        assert Left()[0] == data[position] && Left()[1..] == data[position + 1..];
        if data[position] == '}' {
          position := position + 1;
          return true, node;
        }
        var read, key := ReadString();
        if !read {
          return false, node;
        }
        var taken := HasKeyIn(node, key, before);
        if taken {
          return false, node;
        }
        SkipWhitespace();
        if position >= |data| {
          return false, node;
        }
        ghost var left := Left();
        assert left[0] == data[position];
        if data[position] == '"' {
          var value;
          read, value := ReadString();
          if !read {
            return false, node;
          }
          LastEntry(before, Entry(key, Leaf(value)));
          node := node.(values := node.values[key := value]);
          before := before + [Entry(key, Leaf(value))];
          continue;
        }
        if data[position] == '{' {
          var child;
          read, child := ReadNode();
          if !read {
            return false, node;
          }
          ghost var inner := ReadObject(left).entries;
          LastEntry(before, Entry(key, Sub(inner)));
          node := node.(children := node.children[key := child]);
          before := before + [Entry(key, Sub(inner))];
          continue;
        }
        return false, node;
      }
    }
  }

  lemma EmptyNode()
    ensures NodeOf([]) == Node(map[], map[])
  {
  }

  lemma LastEntry(before: seq<Entry>, entry: Entry)
    ensures NodeOf(before + [entry]) ==
      match entry.value
      case Leaf(text) => NodeOf(before).(values := NodeOf(before).values[entry.key := text])
      case Sub(inner) => NodeOf(before).(children := NodeOf(before).children[entry.key := NodeOf(inner)])
  {
    assert (before + [entry])[..|before|] == before;
  }

  /** The maps of a node have exactly the keys of its text. */
  lemma {:induction false} KeysOfNode(entries: seq<Entry>, key: string)
    ensures key in NodeOf(entries).values || key in NodeOf(entries).children <==>
      exists i :: 0 <= i < |entries| && entries[i].key == key
    decreases |entries|
  {
    if entries != [] {
      var front := entries[..|entries| - 1];
      KeysOfNode(front, key);
      if i: nat :| i < |front| && front[i].key == key {
        assert entries[i].key == key;
      }
      if i: nat :| i < |entries| && entries[i].key == key {
        assert i < |front| ==> front[i].key == key;
      }
      assert entries == front + [entries[|entries| - 1]];
      hide NodeOf;
      LastEntry(front, entries[|entries| - 1]);
    }
  }

  /** hasKey, over both maps in whatever order. */
  method HasKeyIn(node: Node, key: string, ghost entries: seq<Entry>) returns (found: bool)
    requires node == NodeOf(entries)
    ensures found <==> HasKey(entries, key)
  {
    hide NodeOf, EqualFold, HasKey;
    HasKeyOfNode(node, entries, key);
    var keys := node.values.Keys + node.children.Keys;
    while keys != {}
      invariant keys <= node.values.Keys + node.children.Keys
      invariant forall k :: k in node.values.Keys + node.children.Keys - keys ==> !EqualFold(k, key)
      decreases |keys|
    {
      var k :| k in keys;
      if EqualFold(k, key) {
        return true;
      }
      keys := keys - {k};
    }
    return false;
  }

  lemma HasKeyOfNode(node: Node, entries: seq<Entry>, key: string)
    requires node == NodeOf(entries)
    ensures HasKey(entries, key) <==> exists k :: k in node.values.Keys + node.children.Keys && EqualFold(k, key)
  {
    hide NodeOf, EqualFold;
    if i: nat :| i < |entries| && EqualFold(entries[i].key, key) {
      KeysOfNode(entries, entries[i].key);
    }
    if k :| k in node.values.Keys + node.children.Keys && EqualFold(k, key) {
      KeysOfNode(entries, k);
    }
  }

  lemma Prepended(a: string, b: string, read: StringRead)
    ensures Prepend(a, Prepend(b, read)) == Prepend(a + b, read)
  {
    if read.StringRead? {
      assert a + b + read.text == a + (b + read.text);
    }
  }

  // ---- Documents ----

  /** parseVDFPrefix: the root's name, one object, and the white space around them. */
  function ReadPrefix(data: string, root: string): ObjectRead {
    var name := ReadText(Skip(data));
    if name.NoString? || name.text != root then NoObject
    else
      var body := ReadObject(Skip(name.left));
      if body.NoObject? then NoObject else ObjectRead(body.entries, Skip(body.left))
  }

  method ParsePrefix(data: string, root: string) returns (ok: bool, node: Node, consumed: nat)
    ensures ok <==> ReadPrefix(data, root).ObjectRead?
    ensures ok ==> consumed <= |data| && data[consumed..] == ReadPrefix(data, root).left
    ensures ok ==> node == NodeOf(ReadPrefix(data, root).entries)
  {
    hide ReadText, Skip, ReadObject, NodeOf, SpacesTo;
    var parser := new VdfParser(data);
    node, consumed := Node(map[], map[]), 0;
    assert parser.Left() == data;
    parser.SkipWhitespace();
    var name;
    ok, name := parser.ReadString();
    if !ok || name != root {
      return false, node, consumed;
    }
    parser.SkipWhitespace();
    ok, node := parser.ReadNode();
    if !ok {
      return;
    }
    parser.SkipWhitespace();
    consumed := parser.position;
  }

  /** parseVDFDocument: nothing may follow. */
  method ParseDocument(data: string, root: string) returns (ok: bool, node: Node)
    ensures ok <==> ReadPrefix(data, root).ObjectRead? && ReadPrefix(data, root).left == ""
    ensures ok ==> node == NodeOf(ReadPrefix(data, root).entries)
  {
    hide ReadPrefix;
    var consumed;
    ok, node, consumed := ParsePrefix(data, root);
    ok := ok && consumed == |data|;
  }

  // ---- Keys ----

  /** At every depth, no two keys are equal up to case. */
  ghost predicate DistinctKeys(entries: seq<Entry>) {
    && (forall i, k :: 0 <= i < k < |entries| ==> !EqualFold(entries[i].key, entries[k].key))
    && (forall i :: 0 <= i < |entries| ==> entries[i].value.Sub? ==> DistinctKeys(entries[i].value.entries))
  }

  lemma DistinctMore(entries: seq<Entry>, entry: Entry)
    requires DistinctKeys(entries) && !HasKey(entries, entry.key)
    requires entry.value.Sub? ==> DistinctKeys(entry.value.entries)
    ensures DistinctKeys(entries + [entry])
  {
    hide EqualFold;
    var more := entries + [entry];
    assert forall i :: 0 <= i < |entries| ==> more[i] == entries[i];
  }

  /** Whatever input the parser accepts, the keys of every object are distinct up to case. */
  lemma {:induction false} AcceptedKeysAreDistinct(rest: string, before: seq<Entry>)
    requires DistinctKeys(before) && ReadEntries(rest, before).ObjectRead?
    ensures DistinctKeys(ReadEntries(rest, before).entries)
    decreases |rest|
  {
    hide Skip, ReadText, HasKey, DistinctKeys;
    var start := Skip(rest);
    if start[0] != '}' {
      var key := ReadText(start);
      var value := Skip(key.left);
      if value[0] == '"' {
        var text := ReadText(value);
        DistinctMore(before, Entry(key.text, Leaf(text.text)));
        AcceptedKeysAreDistinct(text.left, before + [Entry(key.text, Leaf(text.text))]);
      } else {
        NoKeysDistinct();
        AcceptedKeysAreDistinct(value[1..], []);
        var inner := ReadEntries(value[1..], []);
        DistinctMore(before, Entry(key.text, Sub(inner.entries)));
        AcceptedKeysAreDistinct(inner.left, before + [Entry(key.text, Sub(inner.entries))]);
      }
    }
  }

  lemma NoKeysDistinct()
    ensures DistinctKeys([])
  {
  }

  /** The same of a node: no two keys of one object, values and children together, are equal up to case. */
  ghost predicate WellDefined(node: Node) {
    && (forall a, b :: a in node.values.Keys + node.children.Keys && b in node.values.Keys + node.children.Keys ==>
          EqualFold(a, b) ==> a == b)
    && node.values.Keys !! node.children.Keys
    && (forall k :: k in node.children ==> WellDefined(node.children[k]))
  }

  lemma {:induction false} NodeIsWellDefined(entries: seq<Entry>)
    requires DistinctKeys(entries)
    ensures WellDefined(NodeOf(entries))
    decreases entries
  {
    hide EqualFold;
    if entries != [] {
      var front, last := entries[..|entries| - 1], entries[|entries| - 1];
      assert entries == front + [last];
      NodeIsWellDefined(front);
      if last.value.Sub? {
        NodeIsWellDefined(last.value.entries);
      }
      LastEntry(front, last);
      LastKeyIsNew(front, last);
      hide NodeOf, DistinctKeys, WellDefined;
      match last.value {
        case Leaf(text) => WellDefinedValue(NodeOf(front), last.key, text);
        case Sub(inner) => WellDefinedChild(NodeOf(front), last.key, NodeOf(inner));
      }
    }
  }

  /** No key of the node is equal to `key` up to case. */
  ghost predicate NewKey(node: Node, key: string) {
    forall k :: k in node.values.Keys + node.children.Keys ==> !EqualFold(k, key) && !EqualFold(key, k)
  }

  lemma LastKeyIsNew(front: seq<Entry>, last: Entry)
    requires DistinctKeys(front + [last])
    ensures NewKey(NodeOf(front), last.key)
  {
    hide EqualFold, NodeOf;
    var entries, before := front + [last], NodeOf(front);
    forall k | k in before.values.Keys + before.children.Keys
      ensures !EqualFold(k, last.key) && !EqualFold(last.key, k)
    {
      KeysOfNode(front, k);
      var i: nat :| i < |front| && front[i].key == k;
      assert entries[i] == front[i] && entries[|front|] == last;
      FoldSymmetric(k, last.key);
    }
  }

  lemma WellDefinedValue(node: Node, key: string, value: string)
    requires WellDefined(node) && NewKey(node, key)
    ensures WellDefined(node.(values := node.values[key := value]))
  {
    FoldReflexive(key);
    hide EqualFold;
  }

  lemma WellDefinedChild(node: Node, key: string, child: Node)
    requires WellDefined(node) && NewKey(node, key) && WellDefined(child)
    ensures WellDefined(node.(children := node.children[key := child]))
  {
    FoldReflexive(key);
    hide EqualFold;
  }

  lemma FoldSymmetric(a: string, b: string)
    ensures EqualFold(a, b) <==> EqualFold(b, a)
  {
  }

  lemma FoldReflexive(a: string)
    ensures EqualFold(a, a)
  {
  }

  lemma FoldTransitive(a: string, b: string, c: string)
    requires EqualFold(a, b) && EqualFold(b, c)
    ensures EqualFold(a, c)
  {
    forall i | 0 <= i < |a|
      ensures Lower(a[i]) == Lower(c[i])
    {
      assert Lower(a[i]) == Lower(b[i]) && Lower(b[i]) == Lower(c[i]);
    }
  }

  // ---- Lookups ----

  /** vdfNode.value: the loop may visit the map in any order. */
  method ValueOf(node: Node, key: string) returns (found: bool, value: string)
    ensures found ==> exists k :: k in node.values && EqualFold(k, key) && node.values[k] == value
    ensures !found ==> forall k :: k in node.values ==> !EqualFold(k, key)
    ensures WellDefined(node) ==> forall k :: k in node.values && EqualFold(k, key) ==> value == node.values[k]
  {
    var keys := node.values.Keys;
    while keys != {}
      invariant keys <= node.values.Keys && forall k :: k in node.values.Keys - keys ==> !EqualFold(k, key)
      decreases |keys|
    {
      var k :| k in keys;
      if EqualFold(k, key) {
        if WellDefined(node) {
          OneAnswer(node, k, key);
        }
        return true, node.values[k];
      }
      keys := keys - {k};
    }
    return false, "";
  }

  lemma OneAnswer(node: Node, k: string, key: string)
    requires k in node.values.Keys + node.children.Keys && EqualFold(k, key) && WellDefined(node)
    ensures forall other :: other in node.values.Keys + node.children.Keys && EqualFold(other, key) ==> other == k
  {
    forall other | other in node.values.Keys + node.children.Keys && EqualFold(other, key)
      ensures other == k
    {
      FoldSymmetric(k, key);
      FoldTransitive(other, key, k);
    }
  }

  /** vdfNode.child. */
  method ChildOf(node: Node, key: string) returns (found: bool, child: Node)
    ensures found ==> exists k :: k in node.children && EqualFold(k, key) && node.children[k] == child
    ensures !found ==> forall k :: k in node.children ==> !EqualFold(k, key)
    ensures WellDefined(node) ==>
      (found ==> WellDefined(child)) && forall k :: k in node.children && EqualFold(k, key) ==>
        child == node.children[k]
  {
    var keys := node.children.Keys;
    while keys != {}
      invariant keys <= node.children.Keys && forall k :: k in node.children.Keys - keys ==> !EqualFold(k, key)
      decreases |keys|
    {
      var k :| k in keys;
      if EqualFold(k, key) {
        if WellDefined(node) {
          OneAnswer(node, k, key);
        }
        return true, node.children[k];
      }
      keys := keys - {k};
    }
    return false, node;
  }

  /** Some way of resolving each segment up to case leads to the value. */
  ghost predicate LeadsTo(node: Node, path: seq<string>, value: string)
    decreases |path|
  {
    if path == [] then false
    else if |path| == 1 then exists k :: k in node.values && EqualFold(k, path[0]) && node.values[k] == value
    else exists k :: k in node.children && EqualFold(k, path[0]) && LeadsTo(node.children[k], path[1..], value)
  }

  /** In a well-defined node a path leads to at most one value. */
  lemma {:induction false} OneValue(node: Node, path: seq<string>, a: string, b: string)
    requires WellDefined(node) && LeadsTo(node, path, a) && LeadsTo(node, path, b)
    ensures a == b
    decreases |path|
  {
    hide EqualFold;
    if |path| == 1 {
      var i :| i in node.values && EqualFold(i, path[0]) && node.values[i] == a;
      OneAnswer(node, i, path[0]);
    } else {
      var i :| i in node.children && EqualFold(i, path[0]) && LeadsTo(node.children[i], path[1..], a);
      var k :| k in node.children && EqualFold(k, path[0]) && LeadsTo(node.children[k], path[1..], b);
      OneAnswer(node, i, path[0]);
      assert k == i;
      OneValue(node.children[i], path[1..], a, b);
    }
  }

  /** pathValue: on a well-defined node, the value exactly when some resolution of the path leads to one. */
  method PathValue(node: Node, path: seq<string>) returns (found: bool, value: string)
    requires WellDefined(node)
    ensures found ==> LeadsTo(node, path, value)
    ensures !found ==> forall v :: !LeadsTo(node, path, v)
  {
    hide WellDefined, EqualFold;
    if path == [] {
      return false, "";
    }
    var current := node;
    var i := 0;
    while i < |path| - 1
      invariant 0 <= i < |path| && WellDefined(current)
      invariant forall v :: LeadsTo(node, path, v) <==> LeadsTo(current, path[i..], v)
    {
      var child;
      found, child := ChildOf(current, path[i]);
      assert path[i..][0] == path[i] && path[i..][1..] == path[i + 1..];
      if !found {
        return false, "";
      }
      i := i + 1;
      current := child;
    }
    found, value := ValueOf(current, path[i]);
    assert path[i..] == [path[i]];
  }
}
