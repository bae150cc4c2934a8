/**
 * The assembly of log lines from chunks: completeLines, and the proof that the lines and the
 * remainder depend only on the bytes, not on where the chunks end.
 */
module LogLines {
  import opened Prelude

  /** maxReadinessInputBytes: the longest line, and the most one round reads. */
  const MAX_INPUT_BYTES := 1048576

  datatype Assembly = Assembly(lines: seq<string>, remainder: string) | TooLong

  function TrimReturn(line: string): string {
    if line != "" && line[|line| - 1] == '\r' then line[..|line| - 1] else line
  }

  function Push(a: Assembly, c: char): Assembly {
    if a.TooLong? then TooLong
    else if c == '\n' then Assembly(a.lines + [TrimReturn(a.remainder)], "")
    else if |a.remainder| >= MAX_INPUT_BYTES then TooLong
    else Assembly(a.lines, a.remainder + [c])
  }

  /** The assembly of bytes one at a time. */
  function PushAll(a: Assembly, bytes: string): Assembly
    decreases |bytes|
  {
    if bytes == "" then a else PushAll(Push(a, bytes[0]), bytes[1..])
  }

  /** Chunk boundaries do not matter. */
  lemma {:induction false} PushChunks(a: Assembly, x: string, y: string)
    ensures PushAll(a, x + y) == PushAll(PushAll(a, x), y)
    decreases |x|
  {
    if x == "" {
      assert x + y == y;
    } else {
      hide Push;
      PushChunks(Push(a, x[0]), x[1..], y);
      assert (x + y)[1..] == x[1..] + y;
    }
  }

  lemma {:induction false} PushTooLong(bytes: string)
    ensures PushAll(TooLong, bytes).TooLong?
  {
    if bytes != "" {
      PushTooLong(bytes[1..]);
    }
  }

  /** Bytes without a newline extend the remainder, if it stays short enough. */
  lemma {:induction false} PushPlain(a: Assembly, bytes: string)
    requires a.Assembly? && '\n' !in bytes && |a.remainder| <= MAX_INPUT_BYTES
    ensures PushAll(a, bytes) ==
      if |a.remainder| + |bytes| > MAX_INPUT_BYTES then TooLong else Assembly(a.lines, a.remainder + bytes)
    decreases |bytes|
  {
    if bytes == "" {
      assert a.remainder + "" == a.remainder;
    } else {
      var next := Push(a, bytes[0]);
      if next.TooLong? {
        PushTooLong(bytes[1..]);
      } else {
        PushPlain(next, bytes[1..]);
        assert a.remainder + [bytes[0]] + bytes[1..] == a.remainder + bytes;
      }
    }
  }

  /** A line and its newline. */
  lemma PushLine(a: Assembly, line: string, rest: string)
    requires a.Assembly? && '\n' !in line && |a.remainder| <= MAX_INPUT_BYTES
    ensures PushAll(a, line + "\n" + rest) ==
      if |a.remainder| + |line| > MAX_INPUT_BYTES then TooLong
      else PushAll(Assembly(a.lines + [TrimReturn(a.remainder + line)], ""), rest)
  {
    Associative(line, "\n", rest);
    PushChunks(a, line, "\n" + rest);
    PushPlain(a, line);
    hide TrimReturn;
    assert ("\n" + rest)[1..] == rest;
    if |a.remainder| + |line| > MAX_INPUT_BYTES {
      PushTooLong("\n" + rest);
    }
  }

  /** completeLines, which keeps the unfinished line in `remainder`. */
  method CompleteLines(remainder: string, content: string) returns (ok: bool, lines: seq<string>, left: string)
    requires |remainder| <= MAX_INPUT_BYTES
    ensures PushAll(Assembly([], remainder), content) == if ok then Assembly(lines, left) else TooLong
    ensures ok ==> |left| <= MAX_INPUT_BYTES
  {
    lines, left := [], remainder;
    var rest := content;
    while rest != ""
      invariant |left| <= MAX_INPUT_BYTES
      invariant PushAll(Assembly([], remainder), content) == PushAll(Assembly(lines, left), rest)
      decreases |rest|
    {
      var newline := IndexByte(rest, '\n');
      if newline == |rest| {
        PushPlain(Assembly(lines, left), rest);
        if |left| + |rest| > MAX_INPUT_BYTES {
          return false, [], "";
        }
        left := left + rest;
        rest := "";
        break;
      }
      var line, more := rest[..newline], rest[newline + 1..];
      assert rest == line + "\n" + more;
      PushLine(Assembly(lines, left), line, more);
      if |left| + newline > MAX_INPUT_BYTES {
        return false, [], "";
      }
      var whole := left + line;
      if whole != "" && whole[|whole| - 1] == '\r' {
        whole := whole[..|whole| - 1];
      }
      lines := lines + [whole];
      left := "";
      rest := more;
    }
    ok := true;
  }

  // ---- What the lines are ----

  function TrimAll(pieces: seq<string>): seq<string> {
    if pieces == [] then [] else [TrimReturn(pieces[0])] + TrimAll(pieces[1..])
  }

  predicate AllShort(pieces: seq<string>) {
    forall i :: 0 <= i < |pieces| ==> |pieces[i]| <= MAX_INPUT_BYTES
  }

  /**
   * Exactness: from the start of a log, the lines are the pieces between newlines without their
   * carriage returns, the remainder is the last piece, and the assembly fails exactly when some
   * piece is longer than the limit.
   */
  lemma {:induction false} AssembledIsSplit(lines: seq<string>, bytes: string)
    ensures var pieces := Split(bytes, '\n');
      PushAll(Assembly(lines, ""), bytes) ==
        if AllShort(pieces) then Assembly(lines + TrimAll(pieces[..|pieces| - 1]), pieces[|pieces| - 1]) else TooLong
    decreases |bytes|
  {
    if '\n' !in bytes {
      SplitSingle(bytes, '\n');
      PushPlain(Assembly(lines, ""), bytes);
      assert "" + bytes == bytes && lines + [] == lines;
    } else {
      var newline := IndexByte(bytes, '\n');
      var line, rest := bytes[..newline], bytes[newline + 1..];
      assert bytes == line + "\n" + rest;
      SplitPart(line, rest, '\n');
      PushLine(Assembly(lines, ""), line, rest);
      hide Split, PushAll, TrimReturn;
      var pieces := Split(rest, '\n');
      assert "" + line == line;
      AssembledIsSplit(lines + [TrimReturn(line)], rest);
      FirstPiece(line, pieces, lines);
    }
  }

  lemma FirstPiece(line: string, pieces: seq<string>, lines: seq<string>)
    requires |pieces| >= 1
    ensures var all := [line] + pieces;
      && (AllShort(all) <==> |line| <= MAX_INPUT_BYTES && AllShort(pieces))
      && all[|all| - 1] == pieces[|pieces| - 1]
      && lines + TrimAll(all[..|all| - 1]) == lines + [TrimReturn(line)] + TrimAll(pieces[..|pieces| - 1])
  {
    hide TrimReturn;
    var all := [line] + pieces;
    assert all[..|all| - 1] == [line] + pieces[..|pieces| - 1];
    assert forall i :: 0 < i < |all| ==> all[i] == pieces[i - 1];
    assert all[0] == line && forall i :: 0 <= i < |pieces| ==> pieces[i] == all[i + 1];
  }
}
