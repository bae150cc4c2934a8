/** Printed VDF documents, in any layout, and the proof that parsing gives the tree back. */
module VdfPrinting {
  import opened Prelude
  import opened Vdf

  // ---- Printing ----

  /** The bytes a string may hold: no control byte but newline and tab. */
  predicate Printable(s: string) {
    forall i :: 0 <= i < |s| ==> s[i] >= ' ' || s[i] == '\n' || s[i] == '\t'
  }

  function EscapeOne(c: char): string {
    if c == '"' || c == '\\' then ['\\', c] else if c == '\n' then ['\\', 'n'] else if c == '\t' then ['\\', 't']
      else [c]
  }

  function Escape(s: string): string {
    if s == "" then "" else EscapeOne(s[0]) + Escape(s[1..])
  }

  function PrintText(s: string): string {
    "\"" + Escape(s) + "\""
  }

  /** A tree with the white space of its printed form. */
  datatype Laid = Laid(before: string, key: string, between: string, value: LaidValue)
  datatype LaidValue = LaidLeaf(text: string) | LaidSub(entries: seq<Laid>, last: string)

  predicate Blank(s: string) {
    forall i :: 0 <= i < |s| ==> s[i] == ' ' || s[i] == '\t' || s[i] == '\r' || s[i] == '\n'
  }

  /** White space in every gap, and strings that can be printed. */
  predicate WellLaid(entries: seq<Laid>) {
    forall i :: 0 <= i < |entries| ==>
      var e := entries[i];
      && Blank(e.before) && Blank(e.between) && Printable(e.key)
      && match e.value
         case LaidLeaf(text) => Printable(text)
         case LaidSub(inner, last) => WellLaid(inner) && Blank(last)
  }

  function Erase(entries: seq<Laid>): (tree: seq<Entry>)
    ensures |tree| == |entries|
    decreases entries
  {
    if entries == [] then []
    else
      var e := entries[0];
      [Entry(e.key, match e.value case LaidLeaf(text) => Leaf(text) case LaidSub(inner, _) => Sub(Erase(inner)))] +
        Erase(entries[1..])
  }

  /** The entries of an object and its closing brace. */
  function PrintEntries(entries: seq<Laid>, last: string): string
    decreases entries
  {
    if entries == [] then last + "}"
    else
      var e := entries[0];
      e.before + (PrintText(e.key) + (e.between + (PrintValue(e.value) + PrintEntries(entries[1..], last))))
  }

  function PrintValue(value: LaidValue): string
    decreases value
  {
    match value
    case LaidLeaf(text) => PrintText(text)
    case LaidSub(inner, last) => "{" + PrintEntries(inner, last)
  }

  // ---- Reading back ----

  lemma ReadsOne(c: char, rest: string)
    requires c >= ' ' || c == '\n' || c == '\t'
    ensures Characters(EscapeOne(c) + rest) == Prepend([c], Characters(rest))
  {
    var text := EscapeOne(c) + rest;
    if |EscapeOne(c)| == 2 {
      assert text[0] == '\\' && text[2..] == rest;
    } else {
      assert text[0] == c && text[1..] == rest;
    }
  }

  lemma {:induction false} ReadsCharacters(s: string, tail: string)
    requires Printable(s)
    ensures Characters(Escape(s) + ("\"" + tail)) == StringRead(s, tail)
  {
    var end := "\"" + tail;
    if s == "" {
      assert Escape(s) + end == end && end[1..] == tail;
    } else {
      assert Escape(s) == EscapeOne(s[0]) + Escape(s[1..]);
      ReadsCharacters(s[1..], tail);
      ReadsOne(s[0], Escape(s[1..]) + end);
      assert [s[0]] + s[1..] == s;
      hide Escape, EscapeOne, Characters;
      Associative(EscapeOne(s[0]), Escape(s[1..]), end);
    }
  }

  /** A printed string is read back, whatever follows. */
  lemma ReadsText(s: string, tail: string)
    requires Printable(s)
    ensures ReadText(PrintText(s) + tail) == StringRead(s, tail)
    ensures (PrintText(s) + tail)[0] == '"'
  {
    ReadsCharacters(s, tail);
    Associative("\"" + Escape(s), "\"", tail);
    Associative("\"", Escape(s), "\"" + tail);
    hide Escape, Characters;
    var text := PrintText(s) + tail;
    assert text == "\"" + (Escape(s) + ("\"" + tail));
    assert text[1..] == Escape(s) + ("\"" + tail);
  }

  // ---- What a string may hold ----

  /** One character of a string as it is written: itself, or behind a backslash. */
  datatype Piece = Plain(c: char) | Escaped(c: char)

  function Spelled(p: Piece): string {
    if p.Plain? then [p.c] else ['\\', p.c]
  }

  /** Two escapes stand for themselves, two for newline and tab; behind any other backslash nothing changes. */
  function Sense(p: Piece): string {
    match p
    case Plain(c) => [c]
    case Escaped('"') => ['"']
    case Escaped('\\') => ['\\']
    case Escaped('n') => ['\n']
    case Escaped('t') => ['\t']
    case Escaped(c) => ['\\', c]
  }

  /** No control characters, and quotes and backslashes only behind a backslash. */
  predicate Legal(p: Piece) {
    p.c as int >= 32 && (p.Plain? ==> p.c != '"' && p.c != '\\')
  }

  function Written(pieces: seq<Piece>): string {
    if pieces == [] then "" else Spelled(pieces[0]) + Written(pieces[1..])
  }

  function Meant(pieces: seq<Piece>): string {
    if pieces == [] then "" else Sense(pieces[0]) + Meant(pieces[1..])
  }

  predicate AllLegal(pieces: seq<Piece>) {
    forall i :: 0 <= i < |pieces| ==> Legal(pieces[i])
  }

  lemma ReadsPiece(p: Piece, rest: string)
    requires Legal(p)
    ensures Characters(Spelled(p) + rest) == Prepend(Sense(p), Characters(rest))
  {
    var text := Spelled(p) + rest;
    if p.Plain? {
      assert text[0] == p.c && text[1..] == rest;
    } else {
      assert text[0] == '\\' && text[1] == p.c && text[2..] == rest;
    }
  }

  /** Strings of legal pieces are read for what they mean ... */
  lemma {:induction false} PiecesAreRead(pieces: seq<Piece>, tail: string)
    requires AllLegal(pieces)
    ensures Characters(Written(pieces) + ("\"" + tail)) == StringRead(Meant(pieces), tail)
  {
    var end := "\"" + tail;
    if pieces == [] {
      assert Written(pieces) + end == end && end[1..] == tail;
    } else {
      var p, rest := pieces[0], pieces[1..];
      PiecesAreRead(rest, tail);
      ReadsPiece(p, Written(rest) + end);
      hide Characters, Spelled, Sense, Legal;
      Associative(Spelled(p), Written(rest), end);
    }
  }

  /** The first piece of a string that can be read. */
  lemma FirstPiece(rest: string) returns (p: Piece, more: string)
    requires Characters(rest).StringRead? && rest[0] != '"'
    ensures Legal(p) && rest == Spelled(p) + more && |more| < |rest|
  {
    p, more := if rest[0] == '\\' then Escaped(rest[1]) else Plain(rest[0]), "";
    more := rest[|Spelled(p)|..];
    assert rest == rest[..|Spelled(p)|] + more;
  }

  /** ... and nothing else is a string. */
  lemma {:induction false} ReadStringsArePieces(rest: string) returns (pieces: seq<Piece>)
    requires Characters(rest).StringRead?
    ensures AllLegal(pieces) && Characters(rest).text == Meant(pieces)
    ensures rest == Written(pieces) + ("\"" + Characters(rest).left)
    decreases |rest|
  {
    if rest[0] == '"' {
      pieces := [];
      assert rest == "\"" + rest[1..];
    } else {
      var p, more := FirstPiece(rest);
      ReadsPiece(p, more);
      hide Characters, Spelled, Sense, Legal;
      var others := ReadStringsArePieces(more);
      pieces := [p] + others;
      assert pieces[1..] == others;
      Associative(Spelled(p), Written(others), "\"" + Characters(rest).left);
    }
  }

  lemma {:induction false} SkipsBlank(blank: string, rest: string)
    requires Blank(blank) && (rest == "" || !IsSpace(rest[0]))
    ensures Skip(blank + rest) == rest
  {
    if blank == "" {
      assert blank + rest == rest;
    } else {
      SkipsBlank(blank[1..], rest);
      assert (blank + rest)[1..] == blank[1..] + rest;
    }
  }

  /** The key and the gap behind it. */
  lemma ReadsKey(e: Laid, tail: string)
    requires Blank(e.before) && Blank(e.between) && Printable(e.key) && tail != "" && !IsSpace(tail[0])
    ensures var text := e.before + (PrintText(e.key) + (e.between + tail));
      && Skip(text) != "" && Skip(text)[0] == '"'
      && ReadText(Skip(text)) == StringRead(e.key, e.between + tail)
      && Skip(e.between + tail) == tail
  {
    ReadsText(e.key, e.between + tail);
    hide PrintText, ReadText;
    SkipsBlank(e.before, PrintText(e.key) + (e.between + tail));
    SkipsBlank(e.between, tail);
  }

  lemma {:induction false} EraseFirst(entries: seq<Laid>, before: seq<Entry>)
    requires entries != []
    ensures before + Erase(entries) == before + [Erase(entries)[0]] + Erase(entries[1..])
    ensures Erase(entries)[0].key == entries[0].key
  {
  }

  lemma KeyIsNew(before: seq<Entry>, entries: seq<Laid>)
    requires entries != [] && DistinctKeys(before + Erase(entries))
    ensures !HasKey(before, entries[0].key)
    ensures Erase(entries)[0].value.Sub? ==> DistinctKeys(Erase(entries)[0].value.entries)
  {
    hide EqualFold;
    EraseFirst(entries, before);
    var all := before + Erase(entries);
    assert all[|before|] == Erase(entries)[0];
    forall i | 0 <= i < |before|
      ensures !EqualFold(before[i].key, entries[0].key)
    {
      assert all[i] == before[i];
    }
  }

  /** Whatever follows an entry's gap starts a value. */
  lemma ValueStarts(value: LaidValue, tail: string)
    ensures var text := PrintValue(value) + tail;
      text != "" && !IsSpace(text[0]) && (if value.LaidLeaf? then text[0] == '"' else text[0] == '{')
  {
    hide PrintEntries;
  }

  /** One step of the reader over a plain value. */
  lemma StepsOverLeaf(rest: string, before: seq<Entry>, key: string, gap: string, value: string, text: string,
                      more: string)
    requires Skip(rest) != "" && Skip(rest)[0] == '"' && ReadText(Skip(rest)) == StringRead(key, gap) &&
      !HasKey(before, key)
    requires Skip(gap) == value && value != "" && value[0] == '"' && ReadText(value) == StringRead(text, more)
    ensures ReadEntries(rest, before) == ReadEntries(more, before + [Entry(key, Leaf(text))])
  {
    hide Skip, ReadText, HasKey;
  }

  /** One step of the reader over a nested object. */
  lemma StepsOverSub(rest: string, before: seq<Entry>, key: string, gap: string, value: string, inner: seq<Entry>,
                     more: string)
    requires Skip(rest) != "" && Skip(rest)[0] == '"' && ReadText(Skip(rest)) == StringRead(key, gap) &&
      !HasKey(before, key)
    requires Skip(gap) == value && value != "" && value[0] == '{' &&
      ReadEntries(value[1..], []) == ObjectRead(inner, more)
    ensures ReadEntries(rest, before) == ReadEntries(more, before + [Entry(key, Sub(inner))])
  {
    hide Skip, ReadText, HasKey;
  }

  lemma Closes(last: string, tail: string, before: seq<Entry>)
    requires Blank(last)
    ensures ReadEntries(last + "}" + tail, before) == ObjectRead(before, tail)
  {
    Associative(last, "}", tail);
    SkipsBlank(last, "}" + tail);
    assert ("}" + tail)[1..] == tail;
    hide Skip;
  }

  lemma FirstErased(entries: seq<Laid>)
    requires entries != []
    ensures Erase(entries)[0] == match entries[0].value
      case LaidLeaf(text) => Entry(entries[0].key, Leaf(text))
      case LaidSub(inner, _) => Entry(entries[0].key, Sub(Erase(inner)))
  {
  }

  lemma SubBody(inner: seq<Laid>, last: string, more: string)
    ensures var value := PrintValue(LaidSub(inner, last)) + more; value[1..] == PrintEntries(inner, last) + more
  {
    hide PrintEntries;
  }

  /** The entries of an object, laid out in any way, are read back and nothing more. */
  lemma {:induction false} ReadsEntries(entries: seq<Laid>, last: string, tail: string, before: seq<Entry>)
    requires WellLaid(entries) && Blank(last) && DistinctKeys(before + Erase(entries))
    ensures ReadEntries(PrintEntries(entries, last) + tail, before) == ObjectRead(before + Erase(entries), tail)
    decreases entries, 2
  {
    hide Skip, ReadText, ReadEntries, DistinctKeys, HasKey, PrintText, Blank, Printable;
    if entries == [] {
      Closes(last, tail, before);
      assert before + [] == before;
    } else {
      var e, more := entries[0], PrintEntries(entries[1..], last) + tail;
      assert WellLaid(entries[1..]) && Blank(e.before) && Blank(e.between) && Printable(e.key);
      FirstEntry(entries, last, tail);
      KeyIsNew(before, entries);
      EraseFirst(entries, before);
      FirstErased(entries);
      hide Erase, PrintEntries;
      ReadsEntries(entries[1..], last, tail, before + [Erase(entries)[0]]);
      ReadsValue(e, more, before);
    }
  }

  /** The first entry is read, whatever is behind it. */
  lemma {:induction false} ReadsValue(e: Laid, more: string, before: seq<Entry>)
    requires WellLaid([e]) && !HasKey(before, e.key)
    requires e.value.LaidSub? ==> DistinctKeys(Erase(e.value.entries))
    ensures var text := e.before + (PrintText(e.key) + (e.between + (PrintValue(e.value) + more)));
      ReadEntries(text, before) == ReadEntries(more, before + [match e.value
        case LaidLeaf(text) => Entry(e.key, Leaf(text))
        case LaidSub(inner, _) => Entry(e.key, Sub(Erase(inner)))])
    decreases e.value, 3
  {
    hide Skip, ReadText, ReadEntries, DistinctKeys, HasKey, PrintText, Blank, Printable, Erase, PrintEntries;
    assert [e][0] == e;
    var value := PrintValue(e.value) + more;
    var rest := e.before + (PrintText(e.key) + (e.between + value));
    ValueStarts(e.value, more);
    ReadsKey(e, value);
    match e.value {
      case LaidLeaf(text) =>
        ReadsText(text, more);
        StepsOverLeaf(rest, before, e.key, e.between + value, value, text, more);
      case LaidSub(inner, last) =>
        SubBody(inner, last, more);
        assert [] + Erase(inner) == Erase(inner);
        ReadsEntries(inner, last, more, []);
        StepsOverSub(rest, before, e.key, e.between + value, value, Erase(inner), more);
    }
  }

  lemma FirstEntry(entries: seq<Laid>, last: string, tail: string)
    requires entries != []
    ensures var e := entries[0];
      PrintEntries(entries, last) + tail ==
        e.before + (PrintText(e.key) + (e.between + (PrintValue(e.value) + (PrintEntries(entries[1..], last) + tail))))
  {
    var e, rest := entries[0], PrintEntries(entries[1..], last);
    var a, b, c, v := e.before, PrintText(e.key), e.between, PrintValue(e.value);
    assert PrintEntries(entries, last) == a + (b + (c + (v + rest)));
    hide *;
    Associative(a, b + (c + (v + rest)), tail);
    Associative(b, c + (v + rest), tail);
    Associative(c, v + rest, tail);
    Associative(v, rest, tail);
  }

  // ---- Documents ----

  /** A document: its name and its object, with white space around both. */
  function PrintDocument(name: string, entries: seq<Laid>, gaps: (string, string, string, string)): string {
    gaps.0 + (PrintText(name) + (gaps.1 + (("{" + PrintEntries(entries, gaps.2)) + gaps.3)))
  }

  /**
   * Round trip: for every tree whose keys are distinct up to case and whose strings are printable,
   * and for every layout, parsing the printed document gives the tree and consumes everything.
   */
  lemma RoundTrip(name: string, entries: seq<Laid>, gaps: (string, string, string, string))
    requires Printable(name) && WellLaid(entries) && DistinctKeys(Erase(entries))
    requires Blank(gaps.0) && Blank(gaps.1) && Blank(gaps.2) && Blank(gaps.3)
    ensures ReadPrefix(PrintDocument(name, entries, gaps), name) == ObjectRead(Erase(entries), "")
  {
    hide PrintEntries, ReadEntries, Erase, Skip, PrintText, ReadText, WellLaid, Blank, Printable, DistinctKeys;
    var body := ("{" + PrintEntries(entries, gaps.2)) + gaps.3;
    assert body[0] == '{' && body[1..] == PrintEntries(entries, gaps.2) + gaps.3;
    assert [] + Erase(entries) == Erase(entries);
    assert gaps.3 + "" == gaps.3;
    ReadsKey(Laid(gaps.0, name, gaps.1, LaidLeaf("")), body);
    ReadsEntries(entries, gaps.2, gaps.3, []);
    SkipsBlank(gaps.3, "");
  }
}
