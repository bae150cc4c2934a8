/**
 * The console-logging edit of BepInEx.cfg: splitting into lines, the scan for the first
 * Logging.Console section, and the single splice it makes. Text is a sequence of byte-sized
 * characters; white space and letter case are those of ASCII.
 */
module ConfigEdit {
  import opened Prelude

  datatype ConfigLine = ConfigLine(body: string, eol: string)

  // ---- Lines ----

  /** The line of `body` followed by a newline: a carriage return belongs to the line ending. */
  function Terminated(body: string): ConfigLine {
    if body != "" && body[|body| - 1] == '\r' then ConfigLine(body[..|body| - 1], "\r\n") else ConfigLine(body, "\n")
  }

  function Lines(value: string): seq<ConfigLine>
    decreases |value|
  {
    if value == "" then []
    else
      var newline := IndexByte(value, '\n');
      if newline == |value| then [ConfigLine(value, "")]
      else [Terminated(value[..newline])] + Lines(value[newline + 1..])
  }

  lemma LinesOfRest(rest: string)
    requires rest != ""
    ensures var newline := IndexByte(rest, '\n');
      Lines(rest) == if newline == |rest| then [ConfigLine(rest, "")]
                     else [Terminated(rest[..newline])] + Lines(rest[newline + 1..])
  {
    hide IndexByte, Terminated;
  }

  method SplitConfigLines(value: string) returns (lines: seq<ConfigLine>)
    ensures lines == Lines(value)
  {
    hide Lines, IndexByte;
    var rest := value;
    lines := [];
    EmptyHasNoLines();
    while rest != ""
      invariant lines + Lines(rest) == Lines(value)
      decreases |rest|
    {
      LinesOfRest(rest);
      var newline := IndexByte(rest, '\n');
      if newline == |rest| {
        Associative(lines, [ConfigLine(rest, "")], []);
        lines := lines + [ConfigLine(rest, "")];
        break;
      }
      var body, eol := rest[..newline], "\n";
      if body != "" && body[|body| - 1] == '\r' {
        body, eol := body[..|body| - 1], "\r\n";
      }
      Associative(lines, [ConfigLine(body, eol)], Lines(rest[newline + 1..]));
      lines := lines + [ConfigLine(body, eol)];
      rest := rest[newline + 1..];
    }
  }

  lemma EmptyHasNoLines()
    ensures Lines("") == []
  {
  }

  function Text(lines: seq<ConfigLine>): string {
    if lines == [] then "" else lines[0].body + lines[0].eol + Text(lines[1..])
  }

  method JoinConfigLines(lines: seq<ConfigLine>) returns (output: string)
    ensures output == Text(lines)
  {
    output := "";
    for i := 0 to |lines|
      invariant output + Text(lines[i..]) == Text(lines)
    {
      output := output + lines[i].body + lines[i].eol;
      assert lines[i..][1..] == lines[i + 1..];
    }
  }

  lemma {:induction false} TextOfConcatenation(a: seq<ConfigLine>, b: seq<ConfigLine>)
    ensures Text(a + b) == Text(a) + Text(b)
  {
    if a == [] {
      assert a + b == b;
    } else {
      assert (a + b)[1..] == a[1..] + b;
      TextOfConcatenation(a[1..], b);
      var head := a[0].body + a[0].eol;
      assert Text(a + b) == head + Text(a[1..] + b);
      assert Text(a) == head + Text(a[1..]);
      hide Text;
      Associative(head, Text(a[1..]), Text(b));
    }
  }

  lemma IndexOfHead(head: string, tail: string, c: char)
    requires c !in head
    ensures IndexByte(head + [c] + tail, c) == |head|
  {
    var s := head + [c] + tail;
    assert forall k :: 0 <= k < |head| ==> s[k] == head[k];
    assert s[|head|] == c;
  }

  /** A line that ends in a newline is split off. */
  lemma LinesOfHead(body: string, tail: string)
    requires '\n' !in body
    ensures Lines(body + "\n" + tail) == [Terminated(body)] + Lines(tail)
  {
    var s := body + "\n" + tail;
    IndexOfHead(body, tail, '\n');
    assert s[..|body|] == body && s[|body| + 1..] == tail;
  }

  lemma TerminatedText(body: string)
    ensures Terminated(body).body + Terminated(body).eol == body + "\n"
  {
    if body != "" && body[|body| - 1] == '\r' {
      assert body == body[..|body| - 1] + "\r";
    }
  }

  /** The first line of a text that has a newline. */
  lemma SplitAtNewline(value: string) returns (body: string, rest: string)
    requires '\n' in value
    ensures '\n' !in body && value == body + "\n" + rest
  {
    var newline := IndexByte(value, '\n');
    body, rest := value[..newline], value[newline + 1..];
  }

  lemma LinesOfLast(value: string)
    requires '\n' !in value && value != ""
    ensures Lines(value) == [ConfigLine(value, "")]
  {
  }

  /** Joining the lines of a text gives the text back. */
  lemma {:induction false} JoinAfterSplit(value: string)
    ensures Text(Lines(value)) == value
    decreases |value|
  {
    if value == "" {
    } else if '\n' !in value {
      LinesOfLast(value);
    } else {
      var body, rest := SplitAtNewline(value);
      LinesOfHead(body, rest);
      hide Lines, Terminated, IndexByte;
      JoinAfterSplit(rest);
      TerminatedText(body);
      var line := Terminated(body);
      assert ([line] + Lines(rest))[1..] == Lines(rest);
      assert line.body + line.eol + rest == value;
    }
  }

  predicate Closed(text: string) {
    text == "" || text[|text| - 1] == '\n'
  }

  lemma ClosedTail(body: string, rest: string)
    requires Closed(body + "\n" + rest)
    ensures Closed(rest)
  {
    var s := body + "\n" + rest;
    if rest != "" {
      assert s[|s| - 1] == rest[|rest| - 1];
    }
  }

  /** Text that ends in a newline can be split on its own. */
  lemma {:induction false} LinesOfConcatenation(a: string, b: string)
    requires Closed(a)
    ensures Lines(a + b) == Lines(a) + Lines(b)
    decreases |a|
  {
    if a == "" {
      assert a + b == b;
    } else {
      var body, rest := SplitAtNewline(a);
      LinesOfHead(body, rest);
      LinesOfHead(body, rest + b);
      Associative(body + "\n", rest, b);
      ClosedTail(body, rest);
      hide *;
      LinesOfConcatenation(rest, b);
      Associative([Terminated(body)], Lines(rest), Lines(b));
    }
  }

  function PreferredEOL(lines: seq<ConfigLine>): string {
    if lines == [] then "\n" else if lines[0].eol != "" then lines[0].eol else PreferredEOL(lines[1..])
  }

  method PreferredConfigEOL(lines: seq<ConfigLine>) returns (eol: string)
    ensures eol == PreferredEOL(lines)
  {
    for i := 0 to |lines|
      invariant PreferredEOL(lines) == PreferredEOL(lines[i..])
    {
      if lines[i].eol != "" {
        return lines[i].eol;
      }
      assert lines[i..][1..] == lines[i + 1..];
    }
    return "\n";
  }

  // ---- What a line says ----

  predicate IsSpace(c: char) {
    c == ' ' || '\t' <= c <= '\r'
  }

  function TrimLeft(s: string): string {
    if s != "" && IsSpace(s[0]) then TrimLeft(s[1..]) else s
  }

  function TrimRight(s: string): string {
    if s != "" && IsSpace(s[|s| - 1]) then TrimRight(s[..|s| - 1]) else s
  }

  function TrimSpace(s: string): string {
    TrimRight(TrimLeft(s))
  }

  datatype Kind = Header(console: bool) | EnabledKey | Plain

  function KindOf(body: string): Kind {
    var trimmed := TrimSpace(body);
    if |trimmed| >= 2 && trimmed[0] == '[' && trimmed[|trimmed| - 1] == ']' then
      Header(EqualFold(TrimSpace(trimmed[1..|trimmed| - 1]), "Logging.Console"))
    else if trimmed != "" && (trimmed[0] == '#' || trimmed[0] == ';') then Plain
    else if '=' in body && EqualFold(TrimSpace(body[..IndexByte(body, '=')]), "Enabled") then EnabledKey
    else Plain
  }

  // ---- replaceConfigValue ----

  predicate IsBlank(c: char) {
    c == ' ' || c == '\t'
  }

  function Leading(s: string): (n: nat)
    ensures n <= |s| && (n < |s| ==> !IsBlank(s[n]))
    ensures forall k :: 0 <= k < n ==> IsBlank(s[k])
  {
    if s != "" && IsBlank(s[0]) then 1 + Leading(s[1..]) else 0
  }

  function Trailing(s: string): (n: nat)
    ensures n <= |s| && (n < |s| ==> !IsBlank(s[|s| - 1 - n]))
    ensures forall k :: |s| - n <= k < |s| ==> IsBlank(s[k])
  {
    if s != "" && IsBlank(s[|s| - 1]) then 1 + Trailing(s[..|s| - 1]) else 0
  }

  /** Where a comment begins; the end if there is none. */
  function CommentIndex(s: string): (n: nat)
    ensures Leading(s) <= n <= |s| && (n < |s| ==> s[n] == '#' || s[n] == ';')
    ensures forall k :: 0 <= k < n ==> s[k] != '#' && s[k] != ';'
  {
    if IndexByte(s, '#') < IndexByte(s, ';') then IndexByte(s, '#') else IndexByte(s, ';')
  }

  /** Where the value of a `key = value # comment` line begins and ends, blanks around it excluded. */
  function ValueStart(line: string): (n: nat)
    requires '=' in line
    ensures n <= |line|
  {
    var equals := IndexByte(line, '=');
    equals + 1 + Leading(line[equals + 1..])
  }

  function ValueEnd(line: string): (n: nat)
    requires '=' in line
    ensures ValueStart(line) <= n <= |line|
  {
    var equals := IndexByte(line, '=');
    var after := line[equals + 1..];
    var part := after[Leading(after)..CommentIndex(after)];
    equals + 1 + CommentIndex(after) - Trailing(part)
  }

  /** The value the line gives its key. */
  function ValueOf(line: string): string
    requires '=' in line
  {
    line[ValueStart(line)..ValueEnd(line)]
  }

  function ReplaceConfigValue(line: string, equals: nat, value: string): string
    requires equals < |line| && equals == IndexByte(line, '=')
  {
    var after := line[equals + 1..];
    var leadingLength := Leading(after);
    var comment := CommentIndex(after);
    var valuePart := after[leadingLength..comment];
    var trailingLength := Trailing(valuePart);
    line[..equals + 1] + after[..leadingLength] + value + valuePart[|valuePart| - trailingLength..] + after[comment..]
  }

  lemma Slices<T>(s: seq<T>, from: nat, lead: nat, comment: nat, trail: nat)
    requires from + comment <= |s| && lead + trail <= comment
    ensures var after := s[from..]; var part := after[lead..comment];
      && s[..from] + after[..lead] == s[..from + lead]
      && part[|part| - trail..] == s[from + comment - trail..from + comment]
      && after[comment..] == s[from + comment..]
      && s[from + comment - trail..from + comment] + s[from + comment..] == s[from + comment - trail..]
  {
  }

  lemma PiecesAre(line: string, value: string, from: nat, after: string, lead: nat, comment: nat, part: string,
                  trail: nat)
    requires '=' in line && from == IndexByte(line, '=') + 1 && after == line[from..]
    requires lead == Leading(after) && comment == CommentIndex(after) && part == after[lead..comment] &&
      trail == Trailing(part)
    ensures ReplaceConfigValue(line, IndexByte(line, '='), value) ==
      line[..from] + after[..lead] + value + part[|part| - trail..] + after[comment..]
    ensures ValueStart(line) == from + lead && ValueEnd(line) == from + comment - trail
  {
    hide Leading, Trailing, CommentIndex, IndexByte;
  }

  /** What ReplaceConfigValue puts together, with a name for each piece. */
  lemma Pieces(line: string, value: string)
      returns (from: nat, after: string, lead: nat, comment: nat, part: string, trail: nat)
    requires '=' in line
    ensures from <= |line| && after == line[from..] && lead <= comment <= |after| && part == after[lead..comment] &&
      trail <= |part|
    ensures ReplaceConfigValue(line, IndexByte(line, '='), value) ==
      line[..from] + after[..lead] + value + part[|part| - trail..] + after[comment..]
    ensures ValueStart(line) == from + lead && ValueEnd(line) == from + comment - trail
  {
    hide *;
    from := IndexByte(line, '=') + 1;
    after := line[from..];
    lead, comment := Leading(after), CommentIndex(after);
    part := after[lead..comment];
    trail := Trailing(part);
    PiecesAre(line, value, from, after, lead, comment, part, trail);
  }

  /** The replacement is a splice of the value. */
  lemma ReplaceIsSplice(line: string, value: string)
    requires '=' in line
    ensures ReplaceConfigValue(line, IndexByte(line, '='), value) ==
      line[..ValueStart(line)] + value + line[ValueEnd(line)..]
  {
    hide *;
    var from, after, lead, comment, part, trail := Pieces(line, value);
    SpliceOf(line, value, from, after, lead, comment, part, trail,
      ReplaceConfigValue(line, IndexByte(line, '='), value));
  }

  lemma SpliceOf(line: string, value: string, from: nat, after: string, lead: nat, comment: nat, part: string,
                 trail: nat,
                 result: string)
    requires from <= |line| && after == line[from..] && lead <= comment <= |after| && part == after[lead..comment] &&
      trail <= |part|
    requires result == line[..from] + after[..lead] + value + part[|part| - trail..] + after[comment..]
    ensures result == line[..from + lead] + value + line[from + comment - trail..]
  {
    Slices(line, from, lead, comment, trail);
    Associative(line[..from + lead] + value, part[|part| - trail..], after[comment..]);
  }

  // ---- The scan ----

  /** Where the edit goes: at an existing key, before the next section, or after the end. */
  datatype Place = AtKey(index: nat) | BeforeHeader(index: nat) | AfterSection | NewSection

  function Kinds(lines: seq<ConfigLine>): (kinds: seq<Kind>)
    ensures |kinds| == |lines|
    ensures forall i :: 0 <= i < |lines| ==> kinds[i] == KindOf(lines[i].body)
  {
    if lines == [] then [] else [KindOf(lines[0].body)] + Kinds(lines[1..])
  }

  function Scan(kinds: seq<Kind>, i: nat, inConsole: bool): Place
    requires i <= |kinds|
    decreases |kinds| - i
  {
    if i == |kinds| then (if inConsole then AfterSection else NewSection)
    else match kinds[i]
      case Header(console) => if inConsole then BeforeHeader(i) else Scan(kinds, i + 1, console)
      case EnabledKey => if inConsole then AtKey(i) else Scan(kinds, i + 1, false)
      case Plain => Scan(kinds, i + 1, inConsole)
  }

  function Last(lines: seq<ConfigLine>): ConfigLine
    requires lines != []
  {
    lines[|lines| - 1]
  }

  /** The lines with the last one ended. */
  function Ended(lines: seq<ConfigLine>): seq<ConfigLine> {
    if lines != [] && Last(lines).eol == "" then lines[|lines| - 1 := Last(lines).(eol := PreferredEOL(lines))]
      else lines
  }

  function NewKey(lines: seq<ConfigLine>): ConfigLine {
    ConfigLine("Enabled = false", PreferredEOL(lines))
  }

  function NewLines(lines: seq<ConfigLine>): seq<ConfigLine> {
    var eol := PreferredEOL(lines);
    (if lines != [] && Last(lines).body != "" then [ConfigLine("", eol)] else [])
    + [ConfigLine("[Logging.Console]", eol), NewKey(lines)]
  }

  predicate IsPlace(lines: seq<ConfigLine>, place: Place) {
    match place
    case AtKey(i) => i < |lines| && '=' in lines[i].body
    case BeforeHeader(i) => i < |lines|
    case _ => true
  }

  function Edited(lines: seq<ConfigLine>, place: Place): seq<ConfigLine>
    requires IsPlace(lines, place)
  {
    match place
    case AtKey(i) =>
      var body := lines[i].body;
      lines[i := lines[i].(body := ReplaceConfigValue(body, IndexByte(body, '='), "false"))]
    case BeforeHeader(i) => lines[..i] + [NewKey(lines)] + lines[i..]
    case AfterSection => Ended(lines) + [NewKey(lines)]
    case NewSection => Ended(lines) + NewLines(lines)
  }

  lemma {:induction false} ScanIsPlace(lines: seq<ConfigLine>, i: nat, inConsole: bool)
    requires i <= |lines|
    ensures IsPlace(lines, Scan(Kinds(lines), i, inConsole))
    decreases |lines| - i
  {
    hide TrimSpace, EqualFold;
    if i < |lines| {
      ScanIsPlace(lines, i + 1, inConsole);
      ScanIsPlace(lines, i + 1, false);
      ScanIsPlace(lines, i + 1, true);
    }
  }

  function PlaceIn(lines: seq<ConfigLine>): (place: Place)
    ensures IsPlace(lines, place)
  {
    ScanIsPlace(lines, 0, false);
    Scan(Kinds(lines), 0, false)
  }

  function Disabled(data: string): string {
    Text(Edited(Lines(data), PlaceIn(Lines(data))))
  }

  /** disableConsoleLogging, editing the list of lines as it goes. */
  method DisableConsoleLogging(data: string) returns (result: string)
    ensures result == Disabled(data)
  {
    var lines := SplitConfigLines(data);
    ghost var original, kinds := lines, Kinds(lines);
    hide KindOf, Lines, Text, PreferredEOL;
    var inConsole, foundSection := false, false;
    var i := 0;
    while i < |lines|
      invariant 0 <= i <= |lines| && lines == original
      invariant foundSection == inConsole
      invariant PlaceIn(original) == Scan(kinds, i, inConsole)
    {
      var kind := KindOf(lines[i].body);
      if kind.Header? {
        if inConsole {
          var eol := PreferredConfigEOL(lines);
          lines := lines[..i] + [ConfigLine("Enabled = false", eol)] + lines[i..];
          result := JoinConfigLines(lines);
          return;
        }
        inConsole := kind.console;
        foundSection := foundSection || inConsole;
        i := i + 1;
        continue;
      }
      if !inConsole || kind.Plain? {
        i := i + 1;
        continue;
      }
      var body := lines[i].body;
      KeyHasEquals(body);
      lines := lines[i := lines[i].(body := ReplaceConfigValue(body, IndexByte(body, '='), "false"))];
      result := JoinConfigLines(lines);
      return;
    }
    var eol := PreferredConfigEOL(lines);
    if inConsole {
      if |lines| > 0 && Last(lines).eol == "" {
        lines := lines[|lines| - 1 := Last(lines).(eol := eol)];
      }
      lines := lines + [ConfigLine("Enabled = false", eol)];
      result := JoinConfigLines(lines);
      return;
    }
    if |lines| > 0 && Last(lines).eol == "" {
      lines := lines[|lines| - 1 := Last(lines).(eol := eol)];
    }
    ghost var ended := lines;
    if |lines| > 0 && Last(lines).body != "" {
      lines := lines + [ConfigLine("", eol)];
    }
    if !foundSection {
      lines := lines + [ConfigLine("[Logging.Console]", eol), ConfigLine("Enabled = false", eol)];
    }
    assert lines == ended + NewLines(original);
    result := JoinConfigLines(lines);
  }

  lemma KeyHasEquals(body: string)
    requires KindOf(body).EnabledKey?
    ensures '=' in body
  {
    hide TrimSpace, EqualFold;
  }
}
