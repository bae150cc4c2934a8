/**
 * What the edit of BepInEx.cfg takes a line for, said of its text: which headers open the console
 * section, which lines set its key, and which characters of such a line are replaced.
 */
module ConfigText {
  import opened Prelude
  import opened ConfigEdit
  import opened ConfigLaws

  /** Space, tab, newline, vertical tab, form feed and carriage return. */
  ghost predicate White(s: string) {
    forall i :: 0 <= i < |s| ==> s[i] == ' ' || 9 <= s[i] as int <= 13
  }

  // ---- Trimming ----

  lemma {:induction false} TrimLeftOfWhite(white: string, s: string)
    requires White(white) && (s != "" ==> !White([s[0]]))
    ensures TrimLeft(white + s) == s
  {
    if white == "" {
      assert white + s == s;
      assert s != "" ==> [s[0]][0] == s[0];
    } else {
      assert (white + s)[1..] == white[1..] + s;
      TrimLeftOfWhite(white[1..], s);
    }
  }

  lemma {:induction false} TrimRightOfWhite(s: string, white: string)
    requires White(white) && (s != "" ==> !White([s[|s| - 1]]))
    ensures TrimRight(s + white) == s
  {
    if white == "" {
      assert s + white == s;
      assert s != "" ==> [s[|s| - 1]][0] == s[|s| - 1];
    } else {
      var shorter := white[..|white| - 1];
      assert (s + white)[..|s + white| - 1] == s + shorter;
      TrimRightOfWhite(s, shorter);
    }
  }

  /** Text without white space at its ends. */
  ghost predicate Trimmed(s: string) {
    s != "" ==> !White([s[0]]) && !White([s[|s| - 1]])
  }

  lemma TrimIs(a: string, s: string, b: string)
    requires White(a) && White(b) && Trimmed(s) && s != ""
    ensures TrimSpace(a + s + b) == s
  {
    assert a + s + b == a + (s + b);
    TrimLeftOfWhite(a, s + b);
    TrimRightOfWhite(s, b);
  }

  lemma {:induction false} LeftParts(s: string) returns (a: string)
    ensures White(a) && s == a + TrimLeft(s)
    ensures TrimLeft(s) != "" ==> !White([TrimLeft(s)[0]])
  {
    if s != "" && IsSpace(s[0]) {
      var more := LeftParts(s[1..]);
      a := [s[0]] + more;
    } else {
      a := "";
      assert s != "" ==> [s[0]][0] == s[0];
    }
  }

  lemma {:induction false} RightParts(s: string) returns (b: string)
    ensures White(b) && s == TrimRight(s) + b
    ensures TrimRight(s) != "" ==> TrimRight(s)[0] == s[0] && !White([TrimRight(s)[|TrimRight(s)| - 1]])
  {
    if s != "" && IsSpace(s[|s| - 1]) {
      var more := RightParts(s[..|s| - 1]);
      b := more + [s[|s| - 1]];
    } else {
      b := "";
      assert s != "" ==> [s[|s| - 1]][0] == s[|s| - 1];
    }
  }

  lemma TrimParts(s: string) returns (a: string, b: string)
    ensures White(a) && White(b) && s == a + TrimSpace(s) + b && Trimmed(TrimSpace(s))
  {
    a := LeftParts(s);
    b := RightParts(TrimLeft(s));
    hide TrimLeft, TrimRight;
  }

  // ---- Lines ----

  ghost predicate HeaderAs(body: string, a: string, name: string, b: string) {
    White(a) && White(b) && body == a + ("[" + name + "]") + b
  }

  /** A section header: brackets around anything. */
  ghost predicate HeaderLine(body: string) {
    exists a, name, b :: HeaderAs(body, a, name, b)
  }

  ghost predicate Named(inner: string, a: string, name: string, b: string, expected: string) {
    White(a) && White(b) && SameLetters(name, expected) && inner == a + name + b
  }

  ghost predicate ConsoleAs(body: string, a: string, inner: string, b: string, c: string, name: string, d: string) {
    HeaderAs(body, a, inner, b) && Named(inner, c, name, d, "Logging.Console")
  }

  /** The header of the console section, in letters of either case. */
  ghost predicate ConsoleLine(body: string) {
    exists a, inner, b, c, name, d :: ConsoleAs(body, a, inner, b, c, name, d)
  }

  ghost predicate EnabledAs(body: string, key: string, a: string, name: string, b: string, rest: string) {
    Named(key, a, name, b, "Enabled") && body == key + "=" + rest
  }

  /** A line that sets the key Enabled. */
  ghost predicate EnabledLine(body: string) {
    exists key, a, name, b, rest :: EnabledAs(body, key, a, name, b, rest)
  }

  lemma HeaderIs(body: string, a: string, name: string, b: string)
    requires HeaderAs(body, a, name, b)
    ensures KindOf(body) == Header(EqualFold(TrimSpace(name), "Logging.Console"))
  {
    var s := "[" + name + "]";
    assert [s[0]][0] == '[' && [s[|s| - 1]][0] == ']';
    TrimIs(a, s, b);
    assert s[1..|s| - 1] == name;
    hide TrimSpace, EqualFold;
  }

  lemma HeaderParts(body: string) returns (a: string, name: string, b: string)
    requires KindOf(body).Header?
    ensures HeaderAs(body, a, name, b)
  {
    a, b := TrimParts(body);
    hide TrimSpace, EqualFold;
    var s := TrimSpace(body);
    name := s[1..|s| - 1];
    assert s == "[" + name + "]";
  }

  /** A name has no white space at its ends. */
  lemma NameTrimmed(name: string, expected: string)
    requires SameLetters(name, expected) && (expected == "Logging.Console" || expected == "Enabled")
    ensures Trimmed(name) && name != ""
  {
    assert expected[0] == 'L' || expected[0] == 'E';
    assert expected[|expected| - 1] == 'e' || expected[|expected| - 1] == 'd';
    var first, last := [name[0]], [name[|name| - 1]];
    assert first[0] as int > 32 && last[0] as int > 32;
  }

  lemma NamedIs(inner: string, a: string, name: string, b: string, expected: string)
    requires Named(inner, a, name, b, expected) && (expected == "Logging.Console" || expected == "Enabled")
    ensures EqualFold(TrimSpace(inner), expected)
  {
    NameTrimmed(name, expected);
    TrimIs(a, name, b);
    FoldMeans(name, expected);
    hide TrimSpace, EqualFold;
  }

  lemma NamedParts(inner: string, expected: string) returns (a: string, name: string, b: string)
    requires EqualFold(TrimSpace(inner), expected)
    ensures Named(inner, a, name, b, expected)
  {
    name := TrimSpace(inner);
    a, b := TrimParts(inner);
    FoldMeans(name, expected);
    hide TrimSpace, EqualFold;
  }

  lemma HeaderMeans(body: string)
    ensures KindOf(body).Header? <==> HeaderLine(body)
    ensures KindOf(body) == Header(true) <==> ConsoleLine(body)
  {
    hide KindOf, TrimSpace, EqualFold, HeaderAs, Named;
    forall a, name, b | HeaderAs(body, a, name, b)
      ensures KindOf(body) == Header(EqualFold(TrimSpace(name), "Logging.Console"))
    {
      HeaderIs(body, a, name, b);
    }
    forall a, inner, b, c, name, d | ConsoleAs(body, a, inner, b, c, name, d)
      ensures KindOf(body) == Header(true)
    {
      NamedIs(inner, c, name, d, "Logging.Console");
    }
    if KindOf(body).Header? {
      var a, inner, b := HeaderParts(body);
      if KindOf(body) == Header(true) {
        var c, name, d := NamedParts(inner, "Logging.Console");
        assert ConsoleAs(body, a, inner, b, c, name, d);
      }
    }
  }

  lemma NoEquals(key: string, a: string, name: string, b: string)
    requires Named(key, a, name, b, "Enabled")
    ensures '=' !in key
  {
    forall i | 0 <= i < |key|
      ensures key[i] != '='
    {
      if |a| <= i < |a| + |name| {
        assert key[i] == name[i - |a|];
        assert "Enabled"[i - |a|] as int > 64;
      } else if i < |a| {
        assert key[i] == a[i];
      } else {
        assert key[i] == b[i - |a| - |name|];
      }
    }
  }

  lemma EnabledMeans(body: string)
    ensures KindOf(body).EnabledKey? <==> EnabledLine(body)
  {
    hide KindOf, TrimSpace, EqualFold, Named, IndexByte;
    forall key, a, name, b, rest | EnabledAs(body, key, a, name, b, rest)
      ensures KindOf(body).EnabledKey?
    {
      NoEquals(key, a, name, b);
      NamedIs(key, a, name, b, "Enabled");
      KeyLineKind(key, rest);
    }
    if KindOf(body).EnabledKey? {
      var key, rest := KeyLineParts(body);
      var a, name, b := NamedParts(key, "Enabled");
      assert EnabledAs(body, key, a, name, b, rest);
    }
  }

  // ---- The section and its key ----

  /** The first console section, and the first line in it that is a header or sets the key, which sets it. */
  ghost predicate FirstKeyOf(lines: seq<ConfigLine>, section: nat, key: nat) {
    && section < key < |lines|
    && ConsoleLine(lines[section].body) && (forall i :: 0 <= i < section ==> !ConsoleLine(lines[i].body))
    && EnabledLine(lines[key].body)
    && forall i :: section < i < key ==> !HeaderLine(lines[i].body) && !EnabledLine(lines[i].body)
  }

  lemma FirstKeyMeans(lines: seq<ConfigLine>, section: nat, key: nat)
    ensures FirstConsoleKey(Kinds(lines), section, key) <==> FirstKeyOf(lines, section, key)
  {
    hide KindOf, ConsoleLine, EnabledLine, HeaderLine, Kinds;
    forall i | 0 <= i < |lines|
      ensures KindOf(lines[i].body).Header? <==> HeaderLine(lines[i].body)
      ensures KindOf(lines[i].body) == Header(true) <==> ConsoleLine(lines[i].body)
      ensures KindOf(lines[i].body).EnabledKey? <==> EnabledLine(lines[i].body)
    {
      HeaderMeans(lines[i].body);
      EnabledMeans(lines[i].body);
    }
  }

  /** A value is replaced exactly if it is that of the first key of the first console section. */
  lemma FirstKeyIsEdited(lines: seq<ConfigLine>, key: nat)
    ensures PlaceIn(lines) == AtKey(key) <==> exists section :: FirstKeyOf(lines, section, key)
  {
    ScanFindsFirst(Kinds(lines), key);
    hide FirstConsoleKey, FirstKeyOf, Scan, Kinds;
    if section: nat :| FirstConsoleKey(Kinds(lines), section, key) {
      FirstKeyMeans(lines, section, key);
    }
    if section: nat :| FirstKeyOf(lines, section, key) {
      FirstKeyMeans(lines, section, key);
    }
  }

  // ---- The value ----

  /**
   * A line that sets a key: behind the first equals sign blanks, the value from `start` to `end`, blanks,
   * and from `comment` a comment, if there is one. An empty value stands before the comment.
   */
  ghost predicate ValueRange(line: string, equals: nat, start: nat, end: nat, comment: nat) {
    && equals < start <= end <= comment <= |line|
    && line[equals] == '=' && (forall k :: 0 <= k < equals ==> line[k] != '=')
    && (forall k :: equals < k < start || end <= k < comment ==> line[k] == ' ' || line[k] == '\t')
    && (forall k :: equals < k < comment ==> line[k] != '#' && line[k] != ';')
    && (comment < |line| ==> line[comment] == '#' || line[comment] == ';')
    && if start == end then end == comment
       else line[start] != ' ' && line[start] != '\t' && line[end - 1] != ' ' && line[end - 1] != '\t'
  }

  /** The value of a line with no value. */
  lemma EmptyValueIs(line: string, equals: nat, start: nat, comment: nat)
    requires ValueRange(line, equals, start, start, comment)
    ensures '=' in line && IndexByte(line, '=') == equals
    ensures ValueStart(line) == start && ValueEnd(line) == start
  {
    UniqueIndex(line, '=', equals);
    var after := line[equals + 1..];
    assert Leading(after) == start - equals - 1 by {
      hide Leading, CommentIndex, IndexByte;
      LeadingOf(after, start - equals - 1);
    }
    assert CommentIndex(after) == comment - equals - 1 by {
      hide CommentIndex;
      CommentIs(after, comment - equals - 1);
    }
    assert Trailing(after[start - equals - 1..comment - equals - 1]) == 0;
    hide *;
    ValueFromParts(line, equals, start, start, comment);
  }

  lemma LeadingOf(s: string, n: nat)
    requires n <= |s| && (n < |s| ==> !IsBlank(s[n])) && forall k :: 0 <= k < n ==> IsBlank(s[k])
    ensures Leading(s) == n
  {
  }

  /** Only the value is replaced: everything before it and behind it stays. */
  lemma OnlyValueReplaced(line: string, equals: nat, start: nat, end: nat, comment: nat)
    requires ValueRange(line, equals, start, end, comment)
    ensures '=' in line && ValueOf(line) == line[start..end]
    ensures Replaced(line) == line[..start] + "false" + line[end..]
  {
    if start == end {
      EmptyValueIs(line, equals, start, comment);
    } else {
      ValueIs(line, equals, start, end, comment);
    }
    hide IndexByte, ValueStart, ValueEnd, ReplaceConfigValue;
    ReplaceIsSplice(line, "false");
  }

  lemma ShortestPart(after: string, lead: nat, comment: nat, part: string, trail: nat)
    requires lead == Leading(after) && comment == CommentIndex(after)
    requires part == after[lead..comment] && trail == Trailing(part)
    ensures if lead < comment - trail then !IsBlank(after[lead]) && !IsBlank(after[comment - 1 - trail]) else trail == 0
  {
    hide CommentIndex;
    if lead < comment {
      assert part[0] == after[lead];
    }
  }

  /** The value is as short as it can be. */
  lemma ValueEnds(line: string)
    requires '=' in line
    ensures var start, end := ValueStart(line), ValueEnd(line);
      if start < end then !IsBlank(line[start]) && !IsBlank(line[end - 1]) else end == CommentOf(line)
  {
    hide IsBlank, IndexByte, ValueStart, ValueEnd, Leading, Trailing, CommentIndex, ReplaceConfigValue;
    var from := IndexByte(line, '=') + 1;
    var after := line[from..];
    var lead, comment := Leading(after), CommentIndex(after);
    var part := after[lead..comment];
    var trail := Trailing(part);
    ShortestPart(after, lead, comment, part, trail);
    PiecesAre(line, "", from, after, lead, comment, part, trail);
  }

  /** Every line with an equals sign has such a range. */
  lemma EveryKeyHasRange(line: string) returns (equals: nat, start: nat, end: nat, comment: nat)
    requires '=' in line
    ensures ValueRange(line, equals, start, end, comment)
  {
    hide IndexByte, ValueStart, ValueEnd, CommentOf;
    equals, start, end, comment := IndexByte(line, '='), ValueStart(line), ValueEnd(line), CommentOf(line);
    ValueBounds(line);
    ValueEnds(line);
  }

  /** After the edit the first key of the first console section is there and reads false. */
  lemma ConsoleReadsFalse(data: string)
      returns (section: nat, key: nat, equals: nat, start: nat, end: nat, comment: nat)
    ensures var lines := Lines(Disabled(data));
      && FirstKeyOf(lines, section, key)
      && ValueRange(lines[key].body, equals, start, end, comment) && lines[key].body[start..end] == "false"
  {
    section, key := ConsoleIsDisabled(data);
    hide FirstConsoleKey, FirstKeyOf, Kinds, ValueOf, ValueRange, Disabled, Lines;
    var lines := Lines(Disabled(data));
    FirstKeyMeans(lines, section, key);
    KeyInLines(lines, section, key);
    equals, start, end, comment := EveryKeyHasRange(lines[key].body);
    RangeInLine(lines[key].body, equals, start, end, comment);
    OnlyValueReplaced(lines[key].body, equals, start, end, comment);
  }

  lemma RangeInLine(line: string, equals: nat, start: nat, end: nat, comment: nat)
    requires ValueRange(line, equals, start, end, comment)
    ensures start <= end <= |line|
  {
  }

  lemma KeyInLines(lines: seq<ConfigLine>, section: nat, key: nat)
    requires FirstKeyOf(lines, section, key)
    ensures key < |lines|
  {
  }
}
