/** The console-logging edit turns the switch off, is one splice of the text, and is idempotent. */
module ConfigLaws {
  import opened Prelude
  import opened ConfigEdit

  // ---- Which key decides ----

  /** The first Enabled key of the first Logging.Console section. */
  predicate FirstConsoleKey(kinds: seq<Kind>, section: nat, key: nat) {
    && section < key < |kinds|
    && kinds[section] == Header(true) && (forall i :: 0 <= i < section ==> kinds[i] != Header(true))
    && kinds[key].EnabledKey? && (forall i :: section < i < key ==> kinds[i].Plain?)
  }

  /** From inside a section the scan stops at the first line that is not plain. */
  lemma {:induction false} ScanInside(kinds: seq<Kind>, i: nat) returns (stop: nat)
    requires i <= |kinds|
    ensures i <= stop <= |kinds| && (forall k :: i <= k < stop ==> kinds[k].Plain?)
    ensures stop < |kinds| ==> !kinds[stop].Plain?
    ensures Scan(kinds, i, true) ==
      if stop == |kinds| then AfterSection else if kinds[stop].Header? then BeforeHeader(stop) else AtKey(stop)
    decreases |kinds| - i
  {
    stop := i;
    if i < |kinds| && kinds[i].Plain? {
      stop := ScanInside(kinds, i + 1);
    }
  }

  /** From outside, it first looks for the section. */
  lemma {:induction false} ScanOutside(kinds: seq<Kind>, i: nat) returns (section: nat)
    requires i <= |kinds|
    ensures i <= section <= |kinds| && (forall k :: i <= k < section ==> kinds[k] != Header(true))
    ensures section < |kinds| ==> kinds[section] == Header(true)
    ensures Scan(kinds, i, false) == if section == |kinds| then NewSection else Scan(kinds, section + 1, true)
    decreases |kinds| - i
  {
    section := i;
    if i < |kinds| && kinds[i] != Header(true) {
      section := ScanOutside(kinds, i + 1);
    }
  }

  /** The edit goes to a key exactly when it is the first one of the first section. */
  lemma ScanFindsFirst(kinds: seq<Kind>, key: nat)
    ensures Scan(kinds, 0, false) == AtKey(key) <==> exists section :: FirstConsoleKey(kinds, section, key)
  {
    var found := ScanOutside(kinds, 0);
    if found < |kinds| {
      var stop := ScanInside(kinds, found + 1);
      if Scan(kinds, 0, false) == AtKey(key) {
        assert FirstConsoleKey(kinds, found, key);
      }
      forall section: nat | FirstConsoleKey(kinds, section, key)
        ensures Scan(kinds, 0, false) == AtKey(key)
      {
        assert section == found && stop == key;
      }
    } else {
      assert forall section: nat :: section < |kinds| ==> kinds[section] != Header(true);
    }
  }

  /** Whatever is in front, the scan goes on behind it where the front left off. */
  lemma {:induction false} ScanPast(front: seq<Kind>, back: seq<Kind>, i: nat, inConsole: bool)
    requires i <= |front| && (Scan(front, i, inConsole).AfterSection? || Scan(front, i, inConsole).NewSection?)
    ensures Scan(front + back, i, inConsole) == Scan(front + back, |front|, Scan(front, i, inConsole).AfterSection?)
    decreases |front| - i
  {
    if i < |front| {
      assert (front + back)[i] == front[i];
      ScanPast(front, back, i + 1,
        if front[i].Header? then front[i].console else if front[i].EnabledKey? then false else inConsole);
    }
  }

  /** Cut before the header that ends it, the section is still open. */
  lemma {:induction false} ScanCut(kinds: seq<Kind>, i: nat, inConsole: bool, stop: nat)
    requires i <= |kinds| && Scan(kinds, i, inConsole) == BeforeHeader(stop)
    ensures i <= stop < |kinds| && Scan(kinds[..stop], i, inConsole) == AfterSection
    decreases |kinds| - i
  {
    if !(inConsole && kinds[i].Header?) {
      ScanCut(kinds, i + 1,
        if kinds[i].Header? then kinds[i].console else if kinds[i].EnabledKey? then false else inConsole, stop);
      assert kinds[..stop][i] == kinds[i];
    }
  }

  // ---- Single lines ----

  lemma UniqueIndex(s: string, c: char, i: nat)
    requires i < |s| && s[i] == c && forall k :: 0 <= k < i ==> s[k] != c
    ensures IndexByte(s, c) == i
  {
  }

  /** Between the equals sign and the comment only `start..end` may be anything but blank. */
  ghost predicate BoundsAt(line: string, equals: nat, start: nat, end: nat, comment: nat) {
    && equals < start <= end <= comment <= |line|
    && line[equals] == '=' && (forall k :: 0 <= k < equals ==> line[k] != '=')
    && (forall k :: equals < k < start || end <= k < comment ==> IsBlank(line[k]))
    && (forall k :: equals < k < comment ==> line[k] != '#' && line[k] != ';')
    && (comment < |line| ==> line[comment] == '#' || line[comment] == ';')
  }

  ghost predicate ValueAt(line: string, equals: nat, start: nat, end: nat, comment: nat) {
    BoundsAt(line, equals, start, end, comment) && start < end && !IsBlank(line[start]) && !IsBlank(line[end - 1])
  }

  lemma LeadingIs(s: string, n: nat)
    requires n < |s| && !IsBlank(s[n]) && forall k :: 0 <= k < n ==> IsBlank(s[k])
    ensures Leading(s) == n
  {
  }

  lemma TrailingIs(s: string, n: nat)
    requires n < |s| && !IsBlank(s[|s| - 1 - n]) && forall k :: |s| - n <= k < |s| ==> IsBlank(s[k])
    ensures Trailing(s) == n
  {
  }

  lemma CommentIs(s: string, n: nat)
    requires n <= |s| && (forall k :: 0 <= k < n ==> s[k] != '#' && s[k] != ';')
    requires n < |s| ==> s[n] == '#' || s[n] == ';'
    ensures CommentIndex(s) == n
  {
    hide IndexByte;
  }

  lemma ValueIs(line: string, equals: nat, start: nat, end: nat, comment: nat)
    requires ValueAt(line, equals, start, end, comment)
    ensures '=' in line && IndexByte(line, '=') == equals
    ensures ValueStart(line) == start && ValueEnd(line) == end
  {
    UniqueIndex(line, '=', equals);
    LeadingIn(line, equals, start, end, comment);
    CommentIn(line, equals, start, end, comment);
    TrailingIn(line, equals, start, end, comment);
    hide *;
    ValueFromParts(line, equals, start, end, comment);
  }

  lemma ValueFromParts(line: string, equals: nat, start: nat, end: nat, comment: nat)
    requires '=' in line && IndexByte(line, '=') == equals && equals < start <= end <= comment <= |line|
    requires Leading(line[equals + 1..]) == start - equals - 1 &&
      CommentIndex(line[equals + 1..]) == comment - equals - 1
    requires Trailing(line[equals + 1..][start - equals - 1..comment - equals - 1]) == comment - end
    ensures ValueStart(line) == start && ValueEnd(line) == end
  {
    hide IndexByte, CommentIndex, Leading, Trailing;
  }

  lemma LeadingIn(line: string, equals: nat, start: nat, end: nat, comment: nat)
    requires ValueAt(line, equals, start, end, comment)
    ensures Leading(line[equals + 1..]) == start - equals - 1
  {
    hide Leading;
    LeadingIs(line[equals + 1..], start - equals - 1);
  }

  lemma CommentIn(line: string, equals: nat, start: nat, end: nat, comment: nat)
    requires ValueAt(line, equals, start, end, comment)
    ensures CommentIndex(line[equals + 1..]) == comment - equals - 1
  {
    hide CommentIndex;
    CommentIs(line[equals + 1..], comment - equals - 1);
  }

  lemma TrailingIn(line: string, equals: nat, start: nat, end: nat, comment: nat)
    requires ValueAt(line, equals, start, end, comment)
    ensures Trailing(line[equals + 1..][start - equals - 1..comment - equals - 1]) == comment - end
  {
    hide Trailing;
    TrailingIs(line[equals + 1..][start - equals - 1..comment - equals - 1], comment - end);
  }

  lemma {:induction false} TrimRightHead(s: string)
    requires s != "" && !IsSpace(s[0])
    ensures TrimRight(s) != "" && TrimRight(s)[0] == s[0]
  {
    if IsSpace(s[|s| - 1]) {
      TrimRightHead(s[..|s| - 1]);
    }
  }

  lemma {:induction false} TrimLeftHead(s: string)
    ensures TrimLeft(s) != "" ==> !IsSpace(TrimLeft(s)[0])
  {
    if s != "" && IsSpace(s[0]) {
      TrimLeftHead(s[1..]);
    }
  }

  lemma TrimSpaceHead(s: string)
    ensures if TrimLeft(s) == "" then TrimSpace(s) == ""
            else TrimSpace(s) != "" && TrimSpace(s)[0] == TrimLeft(s)[0]
  {
    TrimLeftHead(s);
    if TrimLeft(s) != "" {
      TrimRightHead(TrimLeft(s));
    }
  }

  predicate IsEnabledName(key: string) {
    EqualFold(TrimSpace(key), "Enabled") && '=' !in key
  }

  /** Whatever follows the equals sign, a line that starts with the Enabled key is one. */
  lemma KeyLineKind(key: string, rest: string)
    requires IsEnabledName(key)
    ensures KindOf(key + "=" + rest).EnabledKey? && '=' in key + "=" + rest
    ensures IndexByte(key + "=" + rest, '=') == |key|
  {
    var line := key + "=" + rest;
    assert line == key + ("=" + rest);
    IndexOfHead(key, rest, '=');
    assert line[..|key|] == key;
    TrimSpaceHead(key);
    TrimSpaceHead(line);
    TrimLeftOf(key, "=" + rest);
    hide TrimSpace, TrimLeft, IndexByte;
    assert "Enabled"[0] == 'E';
    var first := TrimSpace(key)[0];
    assert Lower(first) == 'e';
  }

  /** A key line is its name, the equals sign and the rest. */
  lemma KeyLineParts(line: string) returns (key: string, rest: string)
    requires KindOf(line).EnabledKey?
    ensures '=' in line && key == line[..IndexByte(line, '=')] && line == key + "=" + rest && IsEnabledName(key)
  {
    hide TrimSpace, EqualFold;
    var equals := IndexByte(line, '=');
    key, rest := line[..equals], line[equals + 1..];
  }

  lemma NewKeyValue(line: string)
    requires line == "Enabled = false"
    ensures '=' in line && ValueOf(line) == "false"
  {
    hide *;
    assert ValueAt(line, 8, 10, 15, 15) by {
      NewKeyValueAt(line);
    }
    ValueIs(line, 8, 10, 15, 15);
    NewKeySlice(line);
  }

  lemma NewKeyValueAt(line: string)
    requires line == "Enabled = false"
    ensures ValueAt(line, 8, 10, 15, 15)
  {
  }

  lemma NewKeySlice(line: string)
    requires line == "Enabled = false" && '=' in line && ValueStart(line) == 10 && ValueEnd(line) == 15
    ensures ValueOf(line) == "false"
  {
    hide ValueStart, ValueEnd;
  }

  lemma NewKeyKind()
    ensures KindOf("Enabled = false").EnabledKey?
  {
    var key, rest := "Enabled ", " false";
    EnabledTrimmed();
    hide KindOf, TrimSpace;
    KeyLineKind(key, rest);
    assert key + "=" + rest == "Enabled = false";
  }

  lemma EnabledTrimmed()
    ensures TrimSpace("Enabled ") == "Enabled"
  {
    assert TrimLeft("Enabled ") == "Enabled ";
    assert "Enabled "[..7] == "Enabled";
    assert TrimRight("Enabled") == "Enabled";
  }

  lemma NewHeaderKind()
    ensures KindOf("[Logging.Console]") == Header(true)
    ensures KindOf("").Plain?
  {
    var s := "[Logging.Console]";
    assert TrimSpace(s) == s;
    assert s[1..|s| - 1] == "Logging.Console";
    var name := "Logging.Console";
    assert TrimLeft(name) == name && TrimRight(name) == name;
    assert TrimSpace("") == "";
  }

  lemma {:induction false} TrimLeftOf(s: string, tail: string)
    ensures TrimLeft(s) != "" ==> TrimLeft(s + tail) == TrimLeft(s) + tail
    ensures TrimLeft(s) == "" ==> TrimLeft(s + tail) == TrimLeft(tail)
  {
    if s == "" {
      assert s + tail == tail;
    } else if IsSpace(s[0]) {
      TrimLeftOf(s[1..], tail);
      assert (s + tail)[1..] == s[1..] + tail;
    }
  }

  /** A trailing carriage return does not change what a line says. */
  lemma KindIgnoresReturn(body: string)
    ensures KindOf(body + "\r") == KindOf(body)
  {
    var s := body + "\r";
    assert TrimSpace(s) == TrimSpace(body) by {
      TrimLeftOf(body, "\r");
      if TrimLeft(body) != "" {
        var t := TrimLeft(body) + "\r";
        assert t[..|t| - 1] == TrimLeft(body);
      } else {
        assert "\r"[1..] == "";
      }
    }
    if '=' in body {
      UniqueIndex(s, '=', IndexByte(body, '='));
      assert s[..IndexByte(body, '=')] == body[..IndexByte(body, '=')];
    } else {
      assert '=' !in s;
    }
    hide TrimSpace, EqualFold, IndexByte;
  }

  // ---- The replaced line ----

  function Replaced(body: string): string
    requires '=' in body
  {
    ReplaceConfigValue(body, IndexByte(body, '='), "false")
  }

  function CommentOf(body: string): nat
    requires '=' in body
  {
    IndexByte(body, '=') + 1 + CommentIndex(body[IndexByte(body, '=') + 1..])
  }

  /** Blanks of a slice are blanks of the line. */
  lemma BlankSlice(line: string, part: string, from: nat, lo: nat, hi: nat)
    requires from + |part| <= |line| && part == line[from..from + |part|] && lo <= hi <= |part|
    requires forall k :: lo <= k < hi ==> IsBlank(part[k])
    ensures forall k :: from + lo <= k < from + hi ==> IsBlank(line[k])
  {
    hide IsBlank;
    forall k | from + lo <= k < from + hi
      ensures IsBlank(line[k])
    {
      assert IsBlank(part[k - from]);
    }
  }

  lemma CommentSlice(line: string, from: nat, n: nat)
    requires from <= |line| && CommentIndex(line[from..]) == n
    ensures from + n <= |line|
    ensures forall k :: from <= k < from + n ==> line[k] != '#' && line[k] != ';'
    ensures from + n < |line| ==> line[from + n] == '#' || line[from + n] == ';'
  {
    hide CommentIndex;
    forall k | from <= k < from + n
      ensures line[k] != '#' && line[k] != ';'
    {
      assert line[from..][k - from] == line[k];
    }
  }

  lemma BlankRange(line: string, from: nat, lead: nat, comment: nat, trail: nat)
    requires from + comment <= |line| && lead + trail <= comment
    requires forall k :: 0 <= k < lead ==> IsBlank(line[from..][k])
    requires var part := line[from..][lead..comment]; forall k :: |part| - trail <= k < |part| ==> IsBlank(part[k])
    ensures forall k :: from <= k < from + lead || from + comment - trail <= k < from + comment ==> IsBlank(line[k])
  {
    hide IsBlank;
    BlankSlice(line, line[from..], from, 0, lead);
    var part := line[from..][lead..comment];
    assert part == line[from + lead..from + comment];
    BlankSlice(line, part, from + lead, |part| - trail, |part|);
  }

  lemma ValueBounds(body: string)
    requires '=' in body
    ensures BoundsAt(body, IndexByte(body, '='), ValueStart(body), ValueEnd(body), CommentOf(body))
  {
    var equals := IndexByte(body, '=');
    hide IndexByte, CommentIndex, Leading, Trailing, IsBlank;
    var after := body[equals + 1..];
    var lead, comment := Leading(after), CommentIndex(after);
    var trail := Trailing(after[lead..comment]);
    CommentSlice(body, equals + 1, comment);
    BlankRange(body, equals + 1, lead, comment, trail);
  }

  lemma SplicedAt(body: string, equals: nat, start: nat, end: nat, comment: nat)
    requires BoundsAt(body, equals, start, end, comment)
    ensures ValueAt(body[..start] + "false" + body[end..], equals, start, start + 5, start + 5 + comment - end)
  {
    var edited := body[..start] + "false" + body[end..];
    assert forall k :: 0 <= k < start ==> edited[k] == body[k];
    assert forall k :: start + 5 <= k < |edited| ==> edited[k] == body[k - start - 5 + end];
    assert edited[start] == 'f' && edited[start + 1] == 'a' && edited[start + 2] == 'l' && edited[start + 3] == 's'
      && edited[start + 4] == 'e';
  }

  /** The spliced line has the same key, and its value reads false. */
  lemma SplicedLine(body: string, key: string, rest: string, start: nat, end: nat, comment: nat)
    requires IsEnabledName(key) && body == key + "=" + rest && BoundsAt(body, |key|, start, end, comment)
    ensures var edited := body[..start] + "false" + body[end..];
      '=' in edited && KindOf(edited).EnabledKey? && ValueOf(edited) == "false"
  {
    hide *;
    BoundsOrder(body, |key|, start, end, comment);
    var edited := body[..start] + "false" + body[end..];
    SplicedAt(body, |key|, start, end, comment);
    KeptKey(body, |key|, start, end);
    assert body[..|key|] == key;
    ValueIs(edited, |key|, start, start + 5, start + 5 + comment - end);
    KeyLineKind(key, edited[|key| + 1..]);
    Middle(body[..start], "false", body[end..]);
    ValueOfIs(edited, start, start + 5);
  }

  lemma ReplacedLine(body: string)
    requires KindOf(body).EnabledKey?
    ensures '=' in body && KindOf(Replaced(body)).EnabledKey?
    ensures '=' in Replaced(body) && ValueOf(Replaced(body)) == "false"
  {
    hide ReplaceConfigValue, CommentOf, ValueStart, ValueEnd, KindOf, BoundsAt, IsEnabledName, IndexByte, ValueOf;
    var key, rest := KeyLineParts(body);
    assert |key| == IndexByte(body, '=');
    ReplaceIsSplice(body, "false");
    ValueBounds(body);
    SplicedLine(body, key, rest, ValueStart(body), ValueEnd(body), CommentOf(body));
  }

  lemma BoundsOrder(body: string, equals: nat, start: nat, end: nat, comment: nat)
    requires BoundsAt(body, equals, start, end, comment)
    ensures equals < start <= end <= comment <= |body| && body[equals] == '='
  {
  }

  lemma KeptKey(body: string, equals: nat, start: nat, end: nat)
    requires equals < start <= end <= |body| && body[equals] == '='
    ensures var edited := body[..start] + "false" + body[end..];
      edited == body[..equals] + "=" + edited[equals + 1..]
  {
    var edited := body[..start] + "false" + body[end..];
    assert edited[..equals] == body[..equals] && edited[equals] == '=';
  }

  lemma Middle<T>(a: seq<T>, b: seq<T>, c: seq<T>)
    ensures (a + b + c)[..|a|] == a && (a + b + c)[|a|..|a| + |b|] == b
  {
  }

  lemma ValueOfIs(line: string, start: nat, end: nat)
    requires '=' in line && ValueStart(line) == start && ValueEnd(line) == end
    ensures ValueOf(line) == line[start..end]
  {
  }

  lemma Unspliced(body: string, start: nat, end: nat)
    requires start <= end <= |body| && body[start..end] == "false"
    ensures body[..start] + "false" + body[end..] == body
  {
  }

  /** A line whose value reads false is left as it is. */
  lemma ReplacingFalse(body: string)
    requires '=' in body && ValueOf(body) == "false"
    ensures Replaced(body) == body
  {
    hide ReplaceConfigValue, ValueStart, ValueEnd, IndexByte;
    ReplaceIsSplice(body, "false");
    Unspliced(body, ValueStart(body), ValueEnd(body));
  }

  // ---- Lists of lines that are the lines of a text ----

  predicate LineOk(line: ConfigLine) {
    && '\n' !in line.body
    && (line.eol == "" ==> line.body != "")
    && (line.eol == "\n" ==> line.body == "" || line.body[|line.body| - 1] != '\r')
    && (line.eol == "" || line.eol == "\n" || line.eol == "\r\n")
  }

  predicate WellFormed(lines: seq<ConfigLine>) {
    forall i :: 0 <= i < |lines| ==> LineOk(lines[i]) && (i < |lines| - 1 ==> lines[i].eol != "")
  }

  lemma TerminatedOk(body: string)
    requires '\n' !in body
    ensures LineOk(Terminated(body)) && Terminated(body).eol != ""
  {
  }

  lemma {:induction false} LinesWellFormed(value: string)
    ensures WellFormed(Lines(value))
    decreases |value|
  {
    if value == "" {
    } else if '\n' !in value {
      LinesOfLast(value);
    } else {
      var body, rest := SplitAtNewline(value);
      LinesOfHead(body, rest);
      LinesWellFormed(rest);
      TerminatedOk(body);
      hide Lines, Terminated, LineOk;
      var all := [Terminated(body)] + Lines(rest);
      assert forall i :: 0 < i < |all| ==> all[i] == Lines(rest)[i - 1];
    }
  }

  lemma TerminatedBack(line: ConfigLine)
    requires LineOk(line) && line.eol != ""
    ensures exists body :: '\n' !in body && Terminated(body) == line && line.body + line.eol == body + "\n"
  {
    if line.eol == "\n" {
      assert Terminated(line.body) == line;
    } else {
      var body := line.body + "\r";
      assert body[..|body| - 1] == line.body;
      assert Terminated(body) == line;
      assert line.body + line.eol == body + "\n";
    }
  }

  lemma LastLine(line: ConfigLine)
    requires LineOk(line) && line.eol == ""
    ensures Lines(line.body + line.eol) == [line]
  {
    assert line.body + line.eol == line.body;
    LinesOfLast(line.body);
  }

  /** Splitting after joining gives well-formed lines back. */
  lemma {:induction false} SplitAfterJoin(lines: seq<ConfigLine>)
    requires WellFormed(lines)
    ensures Lines(Text(lines)) == lines
  {
    if lines != [] {
      var line, rest := lines[0], lines[1..];
      assert WellFormed(rest) && LineOk(line) && (rest != [] ==> line.eol != "");
      SplitAfterJoin(rest);
      assert Text(lines) == line.body + line.eol + Text(rest);
      assert lines == [line] + rest;
      if line.eol == "" {
        assert Text(rest) == "";
        hide LineOk, Text, Lines;
        LastLine(line);
        assert line.body + line.eol + "" == line.body + line.eol;
      } else {
        TerminatedBack(line);
        hide LineOk, Text, Lines, Terminated;
        var body :| '\n' !in body && Terminated(body) == line && line.body + line.eol == body + "\n";
        LinesOfHead(body, Text(rest));
      }
    }
  }

  lemma EOLs(lines: seq<ConfigLine>)
    requires WellFormed(lines)
    ensures PreferredEOL(lines) == "\n" || PreferredEOL(lines) == "\r\n"
  {
    if lines != [] && lines[0].eol == "" {
      assert lines[1..] == [];
    }
  }

  // ---- The edited text ----

  lemma KindsOfConcatenation(a: seq<ConfigLine>, b: seq<ConfigLine>)
    ensures Kinds(a + b) == Kinds(a) + Kinds(b)
  {
    hide KindOf, Kinds;
  }

  /** The lines of the text with its last line ended: as many, and they say the same. */
  lemma EndedLines(lines: seq<ConfigLine>)
    requires WellFormed(lines)
    ensures Closed(Text(Ended(lines))) && Kinds(Lines(Text(Ended(lines)))) == Kinds(lines)
  {
    if lines == [] {
    } else if Last(lines).eol != "" {
      SplitAfterJoin(lines);
      ClosedText(lines);
    } else {
      var front, last, eol := lines[..|lines| - 1], Last(lines), PreferredEOL(lines);
      EOLs(lines);
      assert Ended(lines) == front + [last.(eol := eol)] && lines == front + [last];
      assert WellFormed(front) && LineOk(last);
      FrontClosed(lines);
      LastEnded(last, eol);
      TextOfConcatenation(front, [last.(eol := eol)]);
      SplitAfterJoin(front);
      hide *;
      OneLine(last.(eol := eol));
      LinesOfConcatenation(Text(front), last.body + eol);
      KindsOfConcatenation(front, Lines(last.body + eol));
      KindsOfConcatenation(front, [last]);
      ClosedSum(Text(front), last.body + eol);
    }
  }

  lemma ClosedSum(a: string, b: string)
    requires b != "" && Closed(b)
    ensures Closed(a + b)
  {
  }

  lemma OneLine(line: ConfigLine)
    ensures Text([line]) == line.body + line.eol
  {
    assert [line][1..] == [];
    assert Text([line]) == line.body + line.eol + Text([]);
  }

  lemma {:induction false} ClosedText(lines: seq<ConfigLine>)
    requires WellFormed(lines) && (lines != [] ==> Last(lines).eol != "")
    ensures Closed(Text(lines))
  {
    if lines != [] {
      var front, last := lines[..|lines| - 1], Last(lines);
      assert lines == front + [last];
      assert LineOk(last);
      TextOfConcatenation(front, [last]);
      OneLine(last);
      hide Text;
      ClosedSum(Text(front), last.body + last.eol);
    }
  }

  lemma FrontClosed(lines: seq<ConfigLine>)
    requires WellFormed(lines) && lines != []
    ensures Closed(Text(lines[..|lines| - 1]))
  {
    ClosedText(lines[..|lines| - 1]);
  }

  /** A last line that gets its ending says what it said. */
  lemma LastEnded(last: ConfigLine, eol: string)
    requires LineOk(last) && last.eol == "" && (eol == "\n" || eol == "\r\n")
    ensures Kinds(Lines(last.body + eol)) == [KindOf(last.body)] && last.body + eol != "" && Closed(last.body + eol)
  {
    var body := if eol == "\n" then last.body else last.body + "\r";
    assert last.body + eol == body + "\n" + "";
    LinesOfHead(body, "");
    var line := Terminated(body);
    assert KindOf(line.body) == KindOf(last.body) by {
      if line.body != last.body {
        KindIgnoresReturn(line.body);
        assert line.body + "\r" == last.body;
      }
    }
    assert Lines(last.body + eol) == [line];
    hide Lines, KindOf, Terminated;
    assert Kinds([line]) == [KindOf(line.body)];
  }

  /** Two runs of kinds one after the other, the second one given. */
  lemma {:induction false} LinesOfEnded(lines: seq<ConfigLine>, added: seq<ConfigLine>)
    requires WellFormed(lines) && WellFormed(added)
    ensures Text(Ended(lines) + added) == Text(Ended(lines)) + Text(added)
    ensures Lines(Text(Ended(lines) + added)) == Lines(Text(Ended(lines))) + added
    ensures Kinds(Lines(Text(Ended(lines)))) == Kinds(lines)
  {
    TextOfConcatenation(Ended(lines), added);
    EndedLines(lines);
    hide *;
    LinesOfConcatenation(Text(Ended(lines)), Text(added));
    SplitAfterJoin(added);
  }

  lemma OneKind(line: ConfigLine)
    ensures Kinds([line]) == [KindOf(line.body)]
  {
    hide KindOf;
  }

  lemma KindsAdded(eol: string)
    ensures var blank, header, key :=
        ConfigLine("", eol), ConfigLine("[Logging.Console]", eol), ConfigLine("Enabled = false", eol);
      && Kinds([key]) == [EnabledKey] && Kinds([header, key]) == [Header(true), EnabledKey]
      && Kinds([blank, header, key]) == [Plain, Header(true), EnabledKey]
  {
    var blank, header, key :=
      ConfigLine("", eol), ConfigLine("[Logging.Console]", eol), ConfigLine("Enabled = false", eol);
    NewKeyKind();
    NewHeaderKind();
    hide *;
    OneKind(blank);
    OneKind(header);
    OneKind(key);
    KindsOfConcatenation([header], [key]);
    KindsOfConcatenation([blank], [header, key]);
    assert [header] + [key] == [header, key] && [blank] + [header, key] == [blank, header, key];
  }

  lemma AddedKinds(lines: seq<ConfigLine>)
    requires WellFormed(lines)
    ensures WellFormed([NewKey(lines)]) && WellFormed(NewLines(lines))
    ensures Kinds([NewKey(lines)]) == [EnabledKey]
    ensures Kinds(NewLines(lines)) == [Header(true), EnabledKey] ||
      Kinds(NewLines(lines)) == [Plain, Header(true), EnabledKey]
  {
    EOLs(lines);
    hide KindOf, PreferredEOL, Kinds, LineOk, WellFormed;
    var eol := PreferredEOL(lines);
    var blank, header, key := ConfigLine("", eol), ConfigLine("[Logging.Console]", eol), NewKey(lines);
    KindsAdded(eol);
    assert NewLines(lines) == [header, key] || NewLines(lines) == [blank, header, key];
    AddedOk(blank, header, key);
  }

  lemma AddedOk(blank: ConfigLine, header: ConfigLine, key: ConfigLine)
    requires blank.body == "" && header.body == "[Logging.Console]" && key.body == "Enabled = false"
    requires blank.eol == header.eol == key.eol && (key.eol == "\n" || key.eol == "\r\n")
    ensures WellFormed([key]) && WellFormed([header, key]) && WellFormed([blank, header, key])
  {
    assert LineOk(blank) && LineOk(header) && LineOk(key);
    hide LineOk;
  }

  lemma AtKeyIsKey(lines: seq<ConfigLine>, key: nat)
    requires PlaceIn(lines) == AtKey(key)
    ensures key < |lines| && KindOf(lines[key].body).EnabledKey?
  {
    hide KindOf, Kinds;
    ScanFindsFirst(Kinds(lines), key);
    var section :| FirstConsoleKey(Kinds(lines), section, key);
  }

  lemma LineUpdated(lines: seq<ConfigLine>, key: nat, line: ConfigLine)
    requires WellFormed(lines) && key < |lines| && LineOk(line)
    requires line.eol == lines[key].eol && KindOf(line.body) == KindOf(lines[key].body)
    ensures WellFormed(lines[key := line]) && Kinds(lines[key := line]) == Kinds(lines)
  {
    hide KindOf, LineOk, Kinds;
  }

  /** A key that is there already: only its line changes. */
  lemma EditedAtKey(lines: seq<ConfigLine>, key: nat)
    requires WellFormed(lines) && PlaceIn(lines) == AtKey(key)
    ensures var edited := Edited(lines, AtKey(key));
      && WellFormed(edited) && Kinds(edited) == Kinds(lines)
      && key < |lines| && '=' in lines[key].body && edited[key].body == Replaced(lines[key].body)
  {
    AtKeyIsKey(lines, key);
    hide PlaceIn, KindOf, Kinds, Scan, ReplaceConfigValue, IndexByte, ValueOf, LineOk;
    assert LineOk(lines[key]);
    ReplacedLine(lines[key].body);
    ReplacedStaysLine(lines[key]);
    LineUpdated(lines, key, lines[key].(body := Replaced(lines[key].body)));
  }

  lemma ReplacedStaysLine(line: ConfigLine)
    requires LineOk(line) && '=' in line.body
    ensures LineOk(line.(body := Replaced(line.body)))
  {
    ReplaceIsSplice(line.body, "false");
    hide ReplaceConfigValue, IndexByte, ValueStart, ValueEnd;
    SpliceStaysLine(line, ValueStart(line.body), ValueEnd(line.body));
  }

  lemma SpliceStaysLine(line: ConfigLine, start: nat, end: nat)
    requires LineOk(line) && start <= end <= |line.body|
    ensures LineOk(line.(body := line.body[..start] + "false" + line.body[end..]))
  {
    var body := line.body[..start] + "false" + line.body[end..];
    if end < |line.body| {
      assert body[|body| - 1] == line.body[|line.body| - 1];
    } else {
      assert body[|body| - 1] == "false"[4];
    }
  }

  /** The console switch: the first Enabled key of the first Logging.Console section reads false. */
  lemma ConsoleIsDisabled(data: string) returns (section: nat, key: nat)
    ensures var lines := Lines(Disabled(data));
      FirstConsoleKey(Kinds(lines), section, key) && '=' in lines[key].body && ValueOf(lines[key].body) == "false"
  {
    key := DisabledKey(data);
    hide *;
    ScanFindsFirst(Kinds(Lines(Disabled(data))), key);
    section :| FirstConsoleKey(Kinds(Lines(Disabled(data))), section, key);
  }

  lemma NewKeyAt(lines: seq<ConfigLine>, key: nat, original: seq<ConfigLine>)
    requires key < |lines| && lines[key] == NewKey(original)
    ensures '=' in lines[key].body && ValueOf(lines[key].body) == "false"
  {
    hide ValueOf, PreferredEOL;
    NewKeyValue(lines[key].body);
  }

  lemma DisabledAtKey(lines: seq<ConfigLine>, key: nat)
    requires WellFormed(lines) && PlaceIn(lines) == AtKey(key)
    ensures var text := Lines(Text(Edited(lines, AtKey(key))));
      && PlaceIn(text) == AtKey(key) && key < |text|
      && '=' in text[key].body && ValueOf(text[key].body) == "false"
  {
    AtKeyIsKey(lines, key);
    EditedAtKey(lines, key);
    hide Lines, Text, ValueOf, KindOf, ReplaceConfigValue, IndexByte, WellFormed;
    ReplacedLine(lines[key].body);
    SplitAfterJoin(Edited(lines, AtKey(key)));
    hide Scan, Kinds, Edited;
  }

  lemma DisabledKey(data: string) returns (key: nat)
    ensures var lines := Lines(Disabled(data));
      && Scan(Kinds(lines), 0, false) == AtKey(key) && key < |lines|
      && '=' in lines[key].body && ValueOf(lines[key].body) == "false"
  {
    var lines := Lines(data);
    LinesWellFormed(data);
    var place := PlaceIn(lines);
    hide Lines, Text, ValueOf, KindOf, WellFormed, Kinds, Scan;
    match place {
      case AtKey(k) =>
        key := k;
        DisabledAtKey(lines, k);
      case BeforeHeader(k) =>
        key := k;
        DisabledBefore(lines, k);
      case AfterSection =>
        AddedKinds(lines);
        key := DisabledAfter(lines, [NewKey(lines)]);
      case NewSection =>
        AddedKinds(lines);
        key := DisabledAfter(lines, NewLines(lines));
    }
  }

  lemma LineInserted(lines: seq<ConfigLine>, key: nat, line: ConfigLine)
    requires WellFormed(lines) && key < |lines| && LineOk(line) && line.eol != ""
    ensures WellFormed(lines[..key] + [line] + lines[key..])
  {
    hide LineOk;
    var edited := lines[..key] + [line] + lines[key..];
    assert forall i :: key < i < |edited| ==> edited[i] == lines[i - 1];
  }

  lemma NewKeyOk(lines: seq<ConfigLine>)
    requires WellFormed(lines)
    ensures LineOk(NewKey(lines)) && NewKey(lines).eol != ""
  {
    EOLs(lines);
    hide PreferredEOL, WellFormed;
  }

  lemma ScanInserted(kinds: seq<Kind>, key: nat)
    requires Scan(kinds, 0, false) == BeforeHeader(key)
    ensures key <= |kinds| && Scan(kinds[..key] + [EnabledKey] + kinds[key..], 0, false) == AtKey(key)
  {
    ScanCut(kinds, 0, false, key);
    var back := [EnabledKey] + kinds[key..];
    ScanPast(kinds[..key], back, 0, false);
    assert kinds[..key] + back == kinds[..key] + [EnabledKey] + kinds[key..];
    assert (kinds[..key] + back)[key] == EnabledKey;
  }

  lemma DisabledBefore(lines: seq<ConfigLine>, key: nat)
    requires WellFormed(lines) && Scan(Kinds(lines), 0, false) == BeforeHeader(key) && key < |lines|
    ensures var text := Lines(Text(Edited(lines, BeforeHeader(key))));
      && Scan(Kinds(text), 0, false) == AtKey(key) && key < |text|
      && '=' in text[key].body && ValueOf(text[key].body) == "false"
  {
    hide KindOf, Lines, Text, ValueOf, PreferredEOL, WellFormed, LineOk, Kinds, Scan, NewKey;
    var edited := Edited(lines, BeforeHeader(key));
    NewKeyOk(lines);
    LineInserted(lines, key, NewKey(lines));
    SplitAfterJoin(edited);
    NewKeyAt(edited, key, lines);
    InsertedKinds(lines, key);
    ScanInserted(Kinds(lines), key);
  }

  lemma KindsOfSlices(lines: seq<ConfigLine>, key: nat)
    requires key <= |lines|
    ensures Kinds(lines[..key]) == Kinds(lines)[..key] && Kinds(lines[key..]) == Kinds(lines)[key..]
  {
    hide KindOf, Kinds;
  }

  lemma InsertedKinds(lines: seq<ConfigLine>, key: nat)
    requires key < |lines|
    ensures Kinds(lines[..key] + [NewKey(lines)] + lines[key..]) ==
      Kinds(lines)[..key] + [EnabledKey] + Kinds(lines)[key..]
  {
    KindsAdded(PreferredEOL(lines));
    assert NewKey(lines) == ConfigLine("Enabled = false", PreferredEOL(lines));
    hide *;
    KindsOfSlices(lines, key);
    KindsOfConcatenation(lines[..key] + [NewKey(lines)], lines[key..]);
    KindsOfConcatenation(lines[..key], [NewKey(lines)]);
  }

  lemma DisabledAfter(lines: seq<ConfigLine>, added: seq<ConfigLine>) returns (key: nat)
    requires WellFormed(lines) && WellFormed(added) && added != [] && Last(added) == NewKey(lines)
    requires if Scan(Kinds(lines), 0, false).AfterSection? then Kinds(added) == [EnabledKey]
             else Scan(Kinds(lines), 0, false).NewSection?
                  && (Kinds(added) == [Header(true), EnabledKey] || Kinds(added) == [Plain, Header(true), EnabledKey])
    ensures var text := Lines(Text(Ended(lines) + added));
      && Scan(Kinds(text), 0, false) == AtKey(key) && key < |text|
      && '=' in text[key].body && ValueOf(text[key].body) == "false"
  {
    hide KindOf, Lines, Text, ValueOf, PreferredEOL, WellFormed, Ended, Kinds;
    LinesOfEnded(lines, added);
    var kept := Lines(Text(Ended(lines)));
    key := |kept| + |added| - 1;
    NewKeyAt(kept + added, key, lines);
    KindsOfConcatenation(kept, added);
    ScanPast(Kinds(lines), Kinds(added), 0, false);
    ScanAdded(Kinds(lines), Kinds(added), Scan(Kinds(lines), 0, false).AfterSection?);
  }

  /** What is added ends with the deciding key. */
  lemma ScanAdded(front: seq<Kind>, added: seq<Kind>, inConsole: bool)
    requires (added == [EnabledKey] && inConsole)
      || (!inConsole && (added == [Header(true), EnabledKey] || added == [Plain, Header(true), EnabledKey]))
    ensures Scan(front + added, |front|, inConsole) == AtKey(|front| + |added| - 1)
  {
    var all := front + added;
    assert forall i :: 0 <= i < |added| ==> all[|front| + i] == added[i];
    if |added| == 3 {
      assert all[|front|] == Plain && all[|front| + 1] == Header(true) && all[|front| + 2] == EnabledKey;
      assert Scan(all, |front|, false) == Scan(all, |front| + 1, false);
      assert Scan(all, |front| + 1, false) == Scan(all, |front| + 2, true);
    }
  }

  /** Disabling twice is disabling once. */
  lemma DisablingIsIdempotent(data: string)
    ensures Disabled(Disabled(data)) == Disabled(data)
  {
    var once := Disabled(data);
    var key := DisabledKey(data);
    hide Disabled, Scan, KindOf, Lines, ValueOf, ReplaceConfigValue, IndexByte;
    var lines := Lines(once);
    assert PlaceIn(lines) == AtKey(key);
    ReplacingFalse(lines[key].body);
    assert Edited(lines, AtKey(key)) == lines;
    JoinAfterSplit(once);
    DisabledIs(once);
  }

  lemma DisabledIs(data: string)
    ensures Disabled(data) == Text(Edited(Lines(data), PlaceIn(Lines(data))))
  {
  }

  // ---- One splice ----

  lemma Regroup(a: string, b: string, c: string, d: string)
    ensures a + (b + c + d) == a + b + (c + d)
  {
  }

  lemma SplitAround<T>(s: seq<T>, k: nat)
    requires k < |s|
    ensures s == s[..k] + ([s[k]] + s[k + 1..])
  {
  }

  lemma TextAround(lines: seq<ConfigLine>, k: nat)
    requires k < |lines|
    ensures Text(lines) == Text(lines[..k]) + lines[k].body + (lines[k].eol + Text(lines[k + 1..]))
  {
    hide *;
    SplitAround(lines, k);
    TextOfConcatenation(lines[..k], [lines[k]] + lines[k + 1..]);
    TextOfConcatenation([lines[k]], lines[k + 1..]);
    OneLine(lines[k]);
    Regroup(Text(lines[..k]), lines[k].body, lines[k].eol, Text(lines[k + 1..]));
  }

  lemma SpliceInside(front: string, body: string, back: string, start: nat, end: nat)
    requires start <= end <= |body|
    ensures var text := front + body + back;
      && text[|front| + start..|front| + end] == body[start..end]
      && front + (body[..start] + "false" + body[end..]) + back ==
           text[..|front| + start] + "false" + text[|front| + end..]
  {
  }

  /** What the splice inserts, and where. */
  ghost predicate SpliceAt(data: string, at: nat, upTo: nat, inserted: string) {
    && at <= upTo <= |data| && Disabled(data) == data[..at] + inserted + data[upTo..]
    && var lines := Lines(data);
       match PlaceIn(lines)
       case AtKey(k) =>
         inserted == "false" && data[at..upTo] == ValueOf(lines[k].body) &&
           at == |Text(lines[..k])| + ValueStart(lines[k].body)
       case BeforeHeader(k) =>
         at == upTo == |Text(lines[..k])| && inserted == "Enabled = false" + PreferredEOL(lines)
       case AfterSection =>
         at == upTo == |data| && inserted == MissingEOL(lines) + ("Enabled = false" + PreferredEOL(lines))
       case NewSection =>
         at == upTo == |data| && inserted == MissingEOL(lines) + NewSectionText(lines)
  }

  /** What the last line lacks. */
  function MissingEOL(lines: seq<ConfigLine>): string {
    if lines != [] && Last(lines).eol == "" then PreferredEOL(lines) else ""
  }

  /** A new section: a blank line if the text does not end with one, the header, and the key. */
  function NewSectionText(lines: seq<ConfigLine>): string {
    var eol := PreferredEOL(lines);
    (if lines != [] && Last(lines).body != "" then eol else "") + ("[Logging.Console]" + eol) +
      ("Enabled = false" + eol)
  }

  /** Every byte of the text but the replaced value survives, in order: the edit is one splice. */
  lemma OneSplice(data: string) returns (at: nat, upTo: nat, inserted: string)
    ensures SpliceAt(data, at, upTo, inserted)
  {
    JoinAfterSplit(data);
    var lines := Lines(data);
    hide Lines, Text, KindOf, Kinds, Scan, ReplaceConfigValue, ValueOf, ValueStart, PreferredEOL, IndexByte;
    match PlaceIn(lines) {
      case AtKey(k) =>
        at, upTo := SpliceKey(data, lines, k);
        inserted := "false";
      case BeforeHeader(k) =>
        at, upTo, inserted := |Text(lines[..k])|, |Text(lines[..k])|, "Enabled = false" + PreferredEOL(lines);
        SpliceHeader(data, lines, k);
      case AfterSection =>
        at, upTo := |data|, |data|;
        OneLine(NewKey(lines));
        inserted := SpliceEnd(data, lines, [NewKey(lines)]);
      case NewSection =>
        at, upTo := |data|, |data|;
        NewLinesText(lines);
        inserted := SpliceEnd(data, lines, NewLines(lines));
    }
  }

  lemma NewLinesText(lines: seq<ConfigLine>)
    ensures Text(NewLines(lines)) == NewSectionText(lines)
  {
    var eol := PreferredEOL(lines);
    var blank, header := ConfigLine("", eol), ConfigLine("[Logging.Console]", eol);
    var gap := if lines != [] && Last(lines).body != "" then [blank] else [];
    assert NewLines(lines) == (gap + [header]) + [NewKey(lines)];
    TextOfConcatenation(gap + [header], [NewKey(lines)]);
    TextOfConcatenation(gap, [header]);
    OneLine(header);
    OneLine(NewKey(lines));
    OneLine(blank);
    hide PreferredEOL;
    assert "" + eol == eol;
  }

  lemma SpliceKey(data: string, lines: seq<ConfigLine>, k: nat) returns (at: nat, upTo: nat)
    requires Text(lines) == data && k < |lines| && '=' in lines[k].body
    ensures at <= upTo <= |data| && at == |Text(lines[..k])| + ValueStart(lines[k].body)
    ensures data[at..upTo] == ValueOf(lines[k].body)
    ensures Text(Edited(lines, AtKey(k))) == data[..at] + "false" + data[upTo..]
  {
    hide Text, ReplaceConfigValue, IndexByte, ValueStart, ValueEnd;
    var body := lines[k].body;
    var start, end := ValueStart(body), ValueEnd(body);
    var edited := Edited(lines, AtKey(k));
    TextAround(lines, k);
    TextAround(edited, k);
    ReplaceIsSplice(body, "false");
    ValueOfIs(body, start, end);
    assert edited[..k] == lines[..k] && edited[k + 1..] == lines[k + 1..] && edited[k].eol == lines[k].eol;
    var front, back := Text(lines[..k]), lines[k].eol + Text(lines[k + 1..]);
    at, upTo := |front| + start, |front| + end;
    hide *;
    SpliceInside(front, body, back, start, end);
  }

  lemma SpliceHeader(data: string, lines: seq<ConfigLine>, k: nat)
    requires Text(lines) == data && k < |lines|
    ensures var at := |Text(lines[..k])|;
      at <= |data| &&
        Text(Edited(lines, BeforeHeader(k))) == data[..at] + ("Enabled = false" + PreferredEOL(lines)) + data[at..]
  {
    var front, back := lines[..k], lines[k..];
    assert lines == front + back;
    TextOfConcatenation(front, back);
    TextOfConcatenation(front + [NewKey(lines)], back);
    TextOfConcatenation(front, [NewKey(lines)]);
    OneLine(NewKey(lines));
    hide Text, PreferredEOL;
    assert data[..|Text(front)|] == Text(front) && data[|Text(front)|..] == Text(back);
  }

  lemma SpliceEnd(data: string, lines: seq<ConfigLine>, added: seq<ConfigLine>) returns (inserted: string)
    requires Text(lines) == data
    ensures Text(Ended(lines) + added) == data[..|data|] + inserted + data[|data|..]
    ensures inserted == MissingEOL(lines) + Text(added)
  {
    TextOfConcatenation(Ended(lines), added);
    var eol := EndedText(lines);
    inserted := eol + Text(added);
    hide *;
    assert data[..|data|] == data && data[|data|..] == "";
    Associative(data, eol, Text(added));
  }

  lemma EndedText(lines: seq<ConfigLine>) returns (eol: string)
    ensures Text(Ended(lines)) == Text(lines) + eol && eol == MissingEOL(lines)
  {
    eol := "";
    if lines != [] && Last(lines).eol == "" {
      eol := PreferredEOL(lines);
      var front, last := lines[..|lines| - 1], Last(lines);
      assert lines == front + [last] && Ended(lines) == front + [last.(eol := eol)];
      TextOfConcatenation(front, [last]);
      TextOfConcatenation(front, [last.(eol := eol)]);
      hide Text, PreferredEOL;
      OneLine(last);
      OneLine(last.(eol := eol));
      assert last.body + "" == last.body;
      Associative(Text(front), last.body, eol);
    }
  }
}
