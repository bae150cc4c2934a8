/**
 * The log follower: bounded reads of the active log and of the replacements queued behind it.
 * Logs are files that only grow, named by inode; between any two operations they may grow and
 * new ones may appear. The anchor that recognises a rewritten log is not part of this model.
 */
module LogFollowing {
  import opened Prelude
  import opened LogLines

  const READ_CHUNK_BYTES := 65536
  const MAX_PENDING_GENERATIONS := 16

  type Inode = nat

  /** Every log is still there, with more bytes at its end at most. */
  ghost predicate Grown(before: map<Inode, string>, after: map<Inode, string>) {
    forall i :: i in before ==> i in after && before[i] <= after[i]
  }

  /** One answer of openLogPath. */
  datatype Answer = Answer(path: string, found: Option<Inode>)

  class LogDisk {
    const still: bool              // no one else acts
    var files: map<Inode, string>
    var names: map<string, Inode>
    ghost var answers: seq<Answer>  // every answer so far

    function Named(path: string): Option<Inode>
      reads this
    {
      if path in names && names[path] in files then Some(names[path]) else None
    }

    /** Others append to logs, create new ones, and rename them. */
    method Grow()
      modifies this`files, this`names
      ensures Grown(old(files), files) && (still ==> files == old(files) && names == old(names))
    {
      if still {
        return;
      }
      var acts: bool := *;
      if acts {
        var inode: Inode, more: string := *, *;
        files := files[inode := (if inode in files then files[inode] else "") + more];
      }
      var renames: bool := *;
      if renames {
        var path: string, named: Option<Inode> := *, *;
        names := Put(names, path, named);
      }
    }

    /** openLogPath: the log that the path names now, if there is one. */
    method OpenPath(path: string) returns (found: Option<Inode>)
      modifies this
      ensures still ==> files == old(files) && names == old(names)
      ensures Grown(old(files), files) && found == Named(path) && answers == old(answers) + [Answer(path, found)]
    {
      Grow();
      found := if path in names && names[path] in files then Some(names[path]) else None;
      answers := answers + [Answer(path, found)];
    }
  }

  /** Where reading of one log stands; `start` is where it began. */
  datatype Cursor = Cursor(
    inode: Inode,
    start: nat,
    offset: nat,
    remainder: string,
    more: bool,
    activity: bool,
    detectedObservation: nat)

  /** The lines emitted for the log so far, and the remainder, are the assembly of the bytes read. */
  ghost predicate CursorOk(files: map<Inode, string>, c: Cursor, emitted: seq<string>) {
    && c.inode in files && c.start <= c.offset <= |files[c.inode]| && |c.remainder| <= MAX_INPUT_BYTES
    && PushAll(Assembly([], ""), files[c.inode][c.start..c.offset]) == Assembly(emitted, c.remainder)
  }

  lemma CursorGrows(before: map<Inode, string>, after: map<Inode, string>, c: Cursor, emitted: seq<string>)
    requires CursorOk(before, c, emitted) && Grown(before, after)
    ensures CursorOk(after, c, emitted)
  {
    hide PushAll;
    var a, b := before[c.inode], after[c.inode];
    assert a == b[..|a|];
    assert a[c.start..c.offset] == b[c.start..c.offset];
  }

  lemma NothingGrown(files: map<Inode, string>)
    ensures Grown(files, files)
  {
  }

  lemma GrownTransitive(a: map<Inode, string>, b: map<Inode, string>, c: map<Inode, string>)
    requires Grown(a, b) && Grown(b, c)
    ensures Grown(a, c)
  {
    forall i | i in a
      ensures i in c && a[i] <= c[i]
    {
      assert a[i] <= b[i] && b[i] <= c[i];
      assert a[i] == b[i][..|a[i]|] == c[i][..|a[i]|];
    }
  }

  /** The assembly is additive in what was emitted before. */
  lemma {:induction false} PushFrom(lines: seq<string>, remainder: string, bytes: string)
    ensures PushAll(Assembly(lines, remainder), bytes) ==
      match PushAll(Assembly([], remainder), bytes)
      case TooLong => TooLong
      case Assembly(more, left) => Assembly(lines + more, left)
    decreases |bytes|
  {
    hide TrimReturn;
    if bytes == "" {
      assert lines + [] == lines;
    } else if bytes[0] == '\n' {
      PushFrom(lines + [TrimReturn(remainder)], "", bytes[1..]);
      PushFrom([TrimReturn(remainder)], "", bytes[1..]);
      var rest := PushAll(Assembly([], ""), bytes[1..]);
      assert [] + [TrimReturn(remainder)] == [TrimReturn(remainder)];
      if rest.Assembly? {
        assert lines + [TrimReturn(remainder)] + rest.lines == lines + ([TrimReturn(remainder)] + rest.lines);
      }
    } else if |remainder| >= MAX_INPUT_BYTES {
      PushTooLong(bytes[1..]);
    } else {
      PushFrom(lines, remainder + [bytes[0]], bytes[1..]);
    }
  }

  /** One more chunk. */
  lemma ChunkRead(files: map<Inode, string>, c: Cursor, emitted: seq<string>, n: nat)
    requires CursorOk(files, c, emitted) && c.offset + n <= |files[c.inode]|
    ensures var chunk := files[c.inode][c.offset..c.offset + n];
      PushAll(Assembly([], ""), files[c.inode][c.start..c.offset + n]) ==
        match PushAll(Assembly([], c.remainder), chunk)
        case TooLong => TooLong
        case Assembly(more, left) => Assembly(emitted + more, left)
  {
    hide PushAll;
    var bytes := files[c.inode];
    var head, chunk := bytes[c.start..c.offset], bytes[c.offset..c.offset + n];
    assert bytes[c.start..c.offset + n] == head + chunk;
    PushChunks(Assembly([], ""), head, chunk);
    PushFrom(emitted, c.remainder, chunk);
  }

  function Min(a: nat, b: nat): nat {
    if a <= b then a else b
  }

  /** Some line of the log, read from `start`, is too long. */
  ghost predicate Overlong(files: map<Inode, string>, c: Cursor) {
    c.inode in files &&
    exists n: nat ::
      c.start <= n <= |files[c.inode]| && PushAll(Assembly([], ""), files[c.inode][c.start..n]).TooLong?
  }

  lemma OverlongGrows(before: map<Inode, string>, after: map<Inode, string>, c: Cursor)
    requires Overlong(before, c) && Grown(before, after)
    ensures Overlong(after, c)
  {
    hide PushAll;
    var a, b := before[c.inode], after[c.inode];
    var n: nat :| c.start <= n <= |a| && PushAll(Assembly([], ""), a[c.start..n]).TooLong?;
    assert a == b[..|a|];
    assert a[c.start..n] == b[c.start..n];
  }

  /** A read of so many bytes: they are assembled, and what was there before is read unless more is reported. */
  ghost predicate ReadOn(before: map<Inode, string>, after: map<Inode, string>, c: Cursor, next: Cursor,
                         emitted: seq<string>,
                         lines: seq<string>, length: nat) {
    && CursorOk(after, next, emitted + lines)
    && next.(offset := c.offset, remainder := c.remainder, more := c.more, activity := c.activity) == c
    && next.offset == c.offset + length
    && (next.activity <==> c.activity || length > 0)
    && (!next.more ==> UpToDate(before, next))
  }

  /** Everything that was in the log is read. */
  predicate UpToDate(files: map<Inode, string>, c: Cursor) {
    c.inode in files ==> |files[c.inode]| <= c.offset
  }

  /**
   * readCurrent: at most `remaining` bytes of one log, in chunks. Exactly the bytes between the
   * old and the new offset are assembled; it fails only on a line that is too long.
   */
  method ReadCurrent(d: LogDisk, c: Cursor, remaining: nat, ghost emitted: seq<string>)
      returns (ok: bool, next: Cursor, lines: seq<string>, left: nat)
    requires CursorOk(d.files, c, emitted)
    modifies d`files, d`names
    ensures d.still ==> unchanged(d`files, d`names)
    ensures Grown(old(d.files), d.files)
    ensures ok ==> left <= remaining && ReadOn(old(d.files), d.files, c, next, emitted, lines, remaining - left)
    ensures ok && next.more ==> left == 0
    ensures !ok ==> Overlong(d.files, c)
  {
    hide PushAll;
    d.Grow();
    CursorGrows(old(d.files), d.files, c, emitted);
    next, lines, left := c, [], remaining;
    var size := |d.files[c.inode]|;
    assert emitted + lines == emitted;
    while next.offset < size && left > 0
      invariant Grown(old(d.files), d.files) && CursorOk(d.files, next, emitted + lines)
      invariant d.still ==> unchanged(d`files, d`names)
      invariant next.(offset := c.offset, remainder := c.remainder, activity := c.activity) == c
      invariant |old(d.files)[c.inode]| <= size
      invariant c.offset <= next.offset <= size <= |d.files[c.inode]| && left + (next.offset - c.offset) == remaining
      invariant next.activity <==> c.activity || c.offset < next.offset
      decreases left, size - next.offset
    {
      var n := Min(READ_CHUNK_BYTES, Min(size - next.offset, left));
      var chunk := d.files[c.inode][next.offset..next.offset + n];
      ChunkRead(d.files, next, emitted + lines, n);
      var more, remainder;
      ok, more, remainder := CompleteLines(next.remainder, chunk);
      if !ok {
        assert c.start <= next.offset + n <= |d.files[c.inode]|;
        return;
      }
      assert emitted + lines + more == emitted + (lines + more);
      ghost var before := d.files;
      next := next.(offset := next.offset + n, remainder := remainder, activity := true);
      lines := lines + more;
      left := left - n;
      d.Grow();
      CursorGrows(before, d.files, next, emitted + lines);
      GrownTransitive(old(d.files), before, d.files);
      size := |d.files[c.inode]|;
    }
    next := next.(more := next.offset < size);
    ok := true;
  }

  // ---- The follower ----

  /** One read: so many bytes of that log, and the lines they completed. */
  datatype Read = Read(inode: Inode, length: nat, lines: seq<string>)

  function TotalLength(log: seq<Read>): nat {
    if log == [] then 0 else TotalLength(log[..|log| - 1]) + log[|log| - 1].length
  }

  function AllLines(log: seq<Read>): seq<string> {
    if log == [] then [] else AllLines(log[..|log| - 1]) + log[|log| - 1].lines
  }

  /** The bytes read of one log. */
  function LengthOf(log: seq<Read>, inode: Inode): nat {
    if log == [] then 0
    else
      var last := log[|log| - 1];
      LengthOf(log[..|log| - 1], inode) + (if last.inode == inode then last.length else 0)
  }

  /** The lines handed out for one log. */
  function LinesOf(log: seq<Read>, inode: Inode): seq<string> {
    if log == [] then []
    else
      var last := log[|log| - 1];
      LinesOf(log[..|log| - 1], inode) + (if last.inode == inode then last.lines else [])
  }

  lemma OneMoreRead(log: seq<Read>, r: Read)
    ensures TotalLength(log + [r]) == TotalLength(log) + r.length
    ensures AllLines(log + [r]) == AllLines(log) + r.lines
    ensures forall i :: LengthOf(log + [r], i) == LengthOf(log, i) + if r.inode == i then r.length else 0
    ensures forall i :: LinesOf(log + [r], i) == LinesOf(log, i) + if r.inode == i then r.lines else []
  {
    assert (log + [r])[..|log|] == log;
  }

  lemma {:induction false} NeverRead(log: seq<Read>, inode: Inode)
    requires forall r :: r in log ==> r.inode != inode
    ensures LengthOf(log, inode) == 0 && LinesOf(log, inode) == []
  {
    if log != [] {
      NeverRead(log[..|log| - 1], inode);
      assert log[|log| - 1] in log;
    }
  }

  function InodesOf(cursors: seq<Cursor>): (inodes: seq<Inode>)
    ensures |inodes| == |cursors| && forall i :: 0 <= i < |inodes| ==> inodes[i] == cursors[i].inode
  {
    if cursors == [] then [] else [cursors[0].inode] + InodesOf(cursors[1..])
  }

  predicate NoInodeTwice(inodes: seq<Inode>) {
    forall i, k :: 0 <= i < k < |inodes| ==> inodes[i] != inodes[k]
  }

  /** A cursor whose lines and bytes are accounted for by the reads. */
  ghost predicate Accounted(files: map<Inode, string>, c: Cursor, log: seq<Read>) {
    CursorOk(files, c, LinesOf(log, c.inode)) && LengthOf(log, c.inode) == c.offset - c.start
  }

  ghost predicate AllAccounted(files: map<Inode, string>, cursors: seq<Cursor>, log: seq<Read>) {
    forall i :: 0 <= i < |cursors| ==> Accounted(files, cursors[i], log)
  }

  lemma AccountedGrows(before: map<Inode, string>, after: map<Inode, string>, c: Cursor, log: seq<Read>)
    requires Accounted(before, c, log) && Grown(before, after)
    ensures Accounted(after, c, log)
  {
    hide CursorOk, Grown;
    CursorGrows(before, after, c, LinesOf(log, c.inode));
  }

  /** Reading one log leaves the account of every other one alone. */
  lemma AccountedOther(files: map<Inode, string>, c: Cursor, log: seq<Read>, r: Read)
    requires Accounted(files, c, log) && c.inode != r.inode
    ensures Accounted(files, c, log + [r])
  {
    hide CursorOk;
    OneMoreRead(log, r);
    assert LinesOf(log, c.inode) + [] == LinesOf(log, c.inode);
  }

  /** After a read of the log at `c`, all cursors are accounted for again. */
  lemma AccountedRead(before: map<Inode, string>, after: map<Inode, string>, c: Cursor, next: Cursor, log: seq<Read>,
                      lines: seq<string>)
    requires Accounted(before, c, log) && c.inode == next.inode && c.start == next.start && c.offset <= next.offset
    requires CursorOk(after, next, LinesOf(log, c.inode) + lines)
    ensures Accounted(after, next, log + [Read(c.inode, next.offset - c.offset, lines)])
  {
    hide CursorOk;
    OneMoreRead(log, Read(c.inode, next.offset - c.offset, lines));
  }

  lemma AllAccountedRead(before: map<Inode, string>, after: map<Inode, string>, cursors: seq<Cursor>, log: seq<Read>,
                         r: Read)
    requires AllAccounted(before, cursors, log) && Grown(before, after) && r.inode !in InodesOf(cursors)
    ensures AllAccounted(after, cursors, log + [r])
  {
    hide Accounted, Grown;
    forall i | 0 <= i < |cursors|
      ensures Accounted(after, cursors[i], log + [r])
    {
      assert InodesOf(cursors)[i] == cursors[i].inode;
      AccountedGrows(before, after, cursors[i], log);
      AccountedOther(after, cursors[i], log, r);
    }
  }

  /** Every replacement is queued once, and adopted in the order of the queue. */
  ghost predicate InTurn(seen: set<Inode>, pending: seq<Cursor>, queued: seq<Inode>, adopted: seq<Inode>) {
    && |pending| <= MAX_PENDING_GENERATIONS
    && queued == adopted + InodesOf(pending) && NoInodeTwice(queued)
    && (forall i :: i in queued ==> i in seen)
  }

  /** The reads account for every byte and line of the logs followed, which are different ones. */
  ghost predicate Books(files: map<Inode, string>, seen: set<Inode>, active: Option<Cursor>, pending: seq<Cursor>,
                        log: seq<Read>) {
    && (active.Some? ==> active.value.inode in seen && active.value.inode !in InodesOf(pending))
    && (forall r :: r in log ==> r.inode in seen)
    && AllAccounted(files, pending, log)
    && (active.Some? ==> Accounted(files, active.value, log))
  }

  lemma BooksGrow(before: map<Inode, string>, after: map<Inode, string>, seen: set<Inode>, active: Option<Cursor>,
                  pending: seq<Cursor>, log: seq<Read>)
    requires Books(before, seen, active, pending, log) && Grown(before, after)
    ensures Books(after, seen, active, pending, log)
  {
    hide Accounted, Grown;
    if active.Some? {
      AccountedGrows(before, after, active.value, log);
    }
    forall i | 0 <= i < |pending|
      ensures Accounted(after, pending[i], log)
    {
      AccountedGrows(before, after, pending[i], log);
    }
  }

  lemma BooksStart(files: map<Inode, string>, seen: set<Inode>, c: Cursor, pending: seq<Cursor>, log: seq<Read>)
    requires Books(files, seen, Some(c), pending, log)
    ensures CursorOk(files, c, LinesOf(log, c.inode)) && c.inode in seen && Accounted(files, c, log)
  {
    hide CursorOk;
  }

  /** A read of the active log. */
  lemma ActiveRead(before: map<Inode, string>, after: map<Inode, string>, seen: set<Inode>, c: Cursor, next: Cursor,
                   pending: seq<Cursor>, log: seq<Read>, lines: seq<string>, length: nat)
    requires Books(before, seen, Some(c), pending, log) && Grown(before, after)
    requires ReadOn(before, after, c, next, LinesOf(log, c.inode), lines, length)
    ensures Books(after, seen, Some(next), pending, log + [Read(c.inode, length, lines)])
    ensures Handed(log, log + [Read(c.inode, length, lines)], lines, length)
    ensures SameLog(Some(c), Some(next)) && (!next.more ==> UpToDate(before, next))
  {
    hide CursorOk, Grown, Handed;
    var r := Read(c.inode, length, lines);
    OneHanded(log, r);
    AccountedRead(before, after, c, next, log, lines);
    hide Accounted;
    AllAccountedRead(before, after, pending, log, r);
  }

  lemma PendingStart(files: map<Inode, string>, seen: set<Inode>, active: Option<Cursor>, pending: seq<Cursor>,
                     log: seq<Read>,
                     index: nat)
    requires Books(files, seen, active, pending, log) && index < |pending|
    ensures CursorOk(files, pending[index].(more := false, activity := false), LinesOf(log, pending[index].inode))
  {
    hide CursorOk;
    assert Accounted(files, pending[index], log);
    ResetOk(files, pending[index], log);
  }

  /** A read of one queued log. */
  lemma PendingRead(before: map<Inode, string>, after: map<Inode, string>, seen: set<Inode>, active: Option<Cursor>,
                    pending: seq<Cursor>, queued: seq<Inode>, adopted: seq<Inode>, log: seq<Read>, index: nat,
                    next: Cursor,
                    lines: seq<string>, length: nat)
    requires InTurn(seen, pending, queued, adopted) && Books(before, seen, active, pending, log) && Grown(before, after)
    requires index < |pending|
    requires var c := pending[index].(more := false, activity := false);
      ReadOn(before, after, c, next, LinesOf(log, c.inode), lines, length)
    ensures var r := Read(pending[index].inode, length, lines);
      && Books(after, seen, active, pending[index := next], log + [r]) && Handed(log, log + [r], lines, length)
    ensures InTurn(seen, pending[index := next], queued, adopted) &&
      InodesOf(pending[index := next]) == InodesOf(pending)
    ensures !next.more ==> UpToDate(before, next)
    ensures next.activity <==> length > 0
    ensures next.inode == pending[index].inode && next.detectedObservation == pending[index].detectedObservation
  {
    hide CursorOk, Grown, Handed, InTurn, Books;
    var c := pending[index].(more := false, activity := false);
    OneHanded(log, Read(c.inode, length, lines));
    QueueTurns(seen, pending, queued, adopted, index, next);
    QueueBooks(before, after, seen, active, pending, log, index, next, lines, length);
  }

  lemma QueueTurns(seen: set<Inode>, pending: seq<Cursor>, queued: seq<Inode>, adopted: seq<Inode>, index: nat,
                   next: Cursor)
    requires InTurn(seen, pending, queued, adopted) && index < |pending| && next.inode == pending[index].inode
    ensures InTurn(seen, pending[index := next], queued, adopted)
    ensures InodesOf(pending[index := next]) == InodesOf(pending) && NoInodeTwice(InodesOf(pending))
    ensures next.inode in seen
  {
    SameInodes(pending, index, next);
    SuffixDistinct(adopted, InodesOf(pending));
    assert InodesOf(pending)[index] == next.inode && next.inode in queued;
  }

  lemma QueueBooks(before: map<Inode, string>, after: map<Inode, string>, seen: set<Inode>, active: Option<Cursor>,
                   pending: seq<Cursor>, log: seq<Read>, index: nat, next: Cursor, lines: seq<string>, length: nat)
    requires Books(before, seen, active, pending, log) && Grown(before, after) && NoInodeTwice(InodesOf(pending))
    requires index < |pending| && pending[index].inode in seen
    requires InodesOf(pending[index := next]) == InodesOf(pending)
    requires var c := pending[index].(more := false, activity := false);
      ReadOn(before, after, c, next, LinesOf(log, c.inode), lines, length)
    ensures Books(after, seen, active, pending[index := next], log + [Read(pending[index].inode, length, lines)])
  {
    hide CursorOk, Grown;
    var c := pending[index].(more := false, activity := false);
    var r := Read(c.inode, length, lines);
    assert InodesOf(pending)[index] == c.inode && Accounted(before, pending[index], log);
    ResetOk(before, pending[index], log);
    AccountedRead(before, after, c, next, log, lines);
    hide Accounted;
    OthersAccounted(before, after, pending, index, next, log, r);
    if active.Some? {
      AccountedGrows(before, after, active.value, log);
      AccountedOther(after, active.value, log, r);
    }
  }

  /** Only logs that are or were followed are read, and those of the past are accounted for as well. */
  ghost predicate PastBooks(files: map<Inode, string>, seen: set<Inode>, active: Option<Cursor>, pending: seq<Cursor>,
                            retired: seq<Cursor>, log: seq<Read>) {
    && AllAccounted(files, retired, log)
    && (forall i :: i in InodesOf(retired) ==>
          i in seen && i !in InodesOf(pending) && (active.Some? ==> i != active.value.inode))
    && (forall r :: r in log ==> IsFollowed(active, pending, retired, r.inode))
  }

  predicate IsFollowed(active: Option<Cursor>, pending: seq<Cursor>, retired: seq<Cursor>, inode: Inode) {
    inode in InodesOf(retired) || inode in InodesOf(pending) || (active.Some? && inode == active.value.inode)
  }

  lemma PastGrows(before: map<Inode, string>, after: map<Inode, string>, seen: set<Inode>, more: set<Inode>,
                  active: Option<Cursor>, pending: seq<Cursor>, retired: seq<Cursor>, log: seq<Read>)
    requires PastBooks(before, seen, active, pending, retired, log) && Grown(before, after) && seen <= more
    ensures PastBooks(after, more, active, pending, retired, log)
  {
    hide Accounted, Grown, IsFollowed;
    forall i | 0 <= i < |retired|
      ensures Accounted(after, retired[i], log)
    {
      AccountedGrows(before, after, retired[i], log);
    }
  }

  /** A read of a log that is followed now. */
  lemma PastRead(before: map<Inode, string>, after: map<Inode, string>, seen: set<Inode>, active: Option<Cursor>,
                 nextActive: Option<Cursor>, pending: seq<Cursor>, next: seq<Cursor>, retired: seq<Cursor>,
                 log: seq<Read>, r: Read)
    requires PastBooks(before, seen, active, pending, retired, log) && Grown(before, after)
    requires SameLog(active, nextActive) && InodesOf(next) == InodesOf(pending)
    requires (active.Some? && r.inode == active.value.inode) || r.inode in InodesOf(pending)
    ensures PastBooks(after, seen, nextActive, next, retired, log + [r])
  {
    hide AllAccounted, Grown;
    AllAccountedRead(before, after, retired, log, r);
  }

  /** A new log, at the end of the queue and not read yet. */
  lemma BooksQueue(files: map<Inode, string>, seen: set<Inode>, active: Option<Cursor>, pending: seq<Cursor>, c: Cursor,
                   log: seq<Read>)
    requires Books(files, seen, active, pending, log) && c.inode !in seen && c.inode in files
    requires c.start == c.offset == 0 && c.remainder == ""
    ensures Books(files, seen + {c.inode}, active, pending + [c], log)
  {
    hide Accounted;
    NeverRead(log, c.inode);
    NewCursor(files, c, log);
    MoreInodes(pending, c);
    AllAccountedMore(files, pending, c, log);
    hide AllAccounted;
  }

  lemma QueueInTurn(seen: set<Inode>, pending: seq<Cursor>, c: Cursor, queued: seq<Inode>, adopted: seq<Inode>)
    requires InTurn(seen, pending, queued, adopted) && c.inode !in seen && |pending| < MAX_PENDING_GENERATIONS
    ensures InTurn(seen + {c.inode}, pending + [c], queued + [c.inode], adopted)
  {
    MoreInodes(pending, c);
    Associative(adopted, InodesOf(pending), [c.inode]);
    assert c.inode !in queued;
  }

  lemma PastQueue(files: map<Inode, string>, seen: set<Inode>, active: Option<Cursor>, pending: seq<Cursor>, c: Cursor,
                  retired: seq<Cursor>, log: seq<Read>)
    requires PastBooks(files, seen, active, pending, retired, log) && c.inode !in seen
    ensures PastBooks(files, seen + {c.inode}, active, pending + [c], retired, log)
  {
    hide AllAccounted;
    MoreInodes(pending, c);
  }

  /** The head of the queue takes the place of the active log. */
  lemma PastAdopts(files: map<Inode, string>, seen: set<Inode>, active: Option<Cursor>, pending: seq<Cursor>,
                   retired: seq<Cursor>, log: seq<Read>)
    requires PastBooks(files, seen, active, pending, retired, log) && Books(files, seen, active, pending, log)
    requires pending != [] && NoInodeTwice(InodesOf(pending))
    ensures PastBooks(files, seen, Some(pending[0]), pending[1..], WithRetired(retired, active), log)
  {
    hide Accounted;
    assert InodesOf(pending) == [pending[0].inode] + InodesOf(pending[1..]);
    SuffixDistinct([pending[0].inode], InodesOf(pending[1..]));
    assert pending[0].inode in [pending[0].inode];
    if active.Some? {
      AllAccountedMore(files, retired, active.value, log);
      MoreInodes(retired, active.value);
    }
    hide AllAccounted;
  }

  function WithRetired(retired: seq<Cursor>, active: Option<Cursor>): seq<Cursor> {
    if active.Some? then retired + [active.value] else retired
  }

  lemma NoneRetires(retired: seq<Cursor>)
    ensures WithRetired(retired, None) == retired
  {
  }

  // ---- Rounds ----

  /** The logs retired in all rounds. */
  function AllRetired(history: seq<RoundRecord>): seq<Cursor> {
    if history == [] then []
    else WithRetired(AllRetired(history[..|history| - 1]), history[|history| - 1].retired)
  }

  /** The reads of all rounds. */
  function AllReads(history: seq<RoundRecord>): seq<Read> {
    if history == [] then [] else AllReads(history[..|history| - 1]) + history[|history| - 1].taken
  }

  /** A log that is to be queued. */
  function Unseen(seen: set<Inode>, found: Option<Inode>): seq<Inode> {
    if found.Some? && found.value !in seen then [found.value] else []
  }

  /** A log that was found and not seen before is queued, unless the round fails; nothing else is. */
  predicate Turned(before: seq<Inode>, after: seq<Inode>, seen: set<Inode>, opens: seq<Answer>, ok: bool) {
    || (!ok && after == before)
    || (opens != [] && after == before + Unseen(seen, opens[0].found))
  }

  /** The log at the path is the one that is followed, or there is none. */
  predicate AtPath(active: Option<Cursor>, opens: seq<Answer>) {
    forall i :: 0 <= i < |opens| && opens[i].found.Some? ==>
      active.Some? && active.value.inode == opens[i].found.value
  }

  /** What is left of a round: the logs when it began, what was opened and read, and where it left the follower. */
  datatype RoundRecord = RoundRecord(
    files: map<Inode, string>,
    opens: seq<Answer>,
    taken: seq<Read>,
    active: Option<Cursor>,
    pending: seq<Cursor>,
    adopts: bool,
    retired: Option<Cursor>,        // the log that the adopted one took the place of
    more: bool,
    activity: bool,
    failed: bool)
  {
    function Used(): nat { TotalLength(taken) }

    /** The lines handed out: none if the round failed. */
    function Lines(): seq<string> { if failed then [] else AllLines(taken) }

    /** Everything that was in the logs when the round began is read. */
    predicate CaughtUp() {
      (active.Some? ==> UpToDate(files, active.value)) && forall k :: 0 <= k < |pending| ==> UpToDate(files, pending[k])
    }

    /** Nothing was read, taken over or waits, nothing was missed, and the path still names the log that is followed. */
    predicate Calm() {
      !failed && |opens| == 1 && Used() == 0 && !adopts && pending == [] && CaughtUp() && AtPath(active, opens)
    }
  }

  /**
   * What every round promises: the path is opened once; the budget is kept, and spent if a backlog is
   * reported; without a backlog nothing was missed; there was activity exactly if something was read,
   * another log was at the path, or one was adopted; and a log is retired only when it is read to its
   * end.
   */
  predicate RoundOk(path: string, r: RoundRecord) {
    && (forall i :: 0 <= i < |r.opens| ==> r.opens[i].path == path)
    && (r.retired.Some? ==> UpToDate(r.files, r.retired.value))
    && (!r.failed ==>
          && |r.opens| == 1 && r.Used() <= MAX_INPUT_BYTES
          && (if r.more then r.Used() == MAX_INPUT_BYTES else r.CaughtUp())
          && (r.activity <==> r.Used() > 0 || r.adopts || !AtPath(r.active, r.opens)))
  }

  /** The rounds so far account for everything read, and each for the logs followed behind it. */
  ghost predicate HistoryOk(files: map<Inode, string>, seen: set<Inode>, path: string, history: seq<RoundRecord>) {
    forall r :: 0 <= r < |history| ==> RoundKept(files, seen, path, history, r)
  }

  ghost predicate RoundKept(files: map<Inode, string>, seen: set<Inode>, path: string, history: seq<RoundRecord>,
                            r: nat)
    requires r < |history|
  {
    var h, log := history[r], AllReads(history[..r + 1]);
    && RoundOk(path, h) && Grown(h.files, files) && (r > 0 ==> Grown(history[r - 1].files, h.files))
    && Books(files, seen, h.active, h.pending, log)
    && PastBooks(files, seen, h.active, h.pending, AllRetired(history[..r + 1]), log)
    && (!h.failed ==> forall i :: 0 <= i < |h.opens| && h.opens[i].found.Some? ==> h.opens[i].found.value in seen)
  }

  lemma HistoryGrows(before: map<Inode, string>, after: map<Inode, string>, seen: set<Inode>, more: set<Inode>,
                     path: string, history: seq<RoundRecord>)
    requires HistoryOk(before, seen, path, history) && Grown(before, after) && seen <= more
    ensures HistoryOk(after, more, path, history)
  {
    hide Books, PastBooks, Grown, RoundOk;
    forall r | 0 <= r < |history|
      ensures RoundKept(after, more, path, history, r)
    {
      assert RoundKept(before, seen, path, history, r);
      var h, log := history[r], AllReads(history[..r + 1]);
      GrownTransitive(h.files, before, after);
      BooksGrow(before, after, seen, h.active, h.pending, log);
      BooksSeen(after, seen, more, h.active, h.pending, log);
      PastGrows(before, after, seen, more, h.active, h.pending, AllRetired(history[..r + 1]), log);
    }
  }

  lemma BooksSeen(files: map<Inode, string>, seen: set<Inode>, more: set<Inode>, active: Option<Cursor>,
                  pending: seq<Cursor>, log: seq<Read>)
    requires Books(files, seen, active, pending, log) && seen <= more
    ensures Books(files, more, active, pending, log)
  {
    hide Accounted, AllAccounted;
  }

  /** One more round. */
  lemma HistoryMore(files: map<Inode, string>, seen: set<Inode>, path: string, history: seq<RoundRecord>,
                    h: RoundRecord)
    requires HistoryOk(files, seen, path, history)
    requires RoundOk(path, h) && Grown(h.files, files)
    requires history != [] ==> Grown(history[|history| - 1].files, h.files)
    requires Books(files, seen, h.active, h.pending, AllReads(history) + h.taken)
    requires PastBooks(files, seen, h.active, h.pending, WithRetired(AllRetired(history), h.retired),
                       AllReads(history) + h.taken)
    requires !h.failed ==> forall i :: 0 <= i < |h.opens| && h.opens[i].found.Some? ==> h.opens[i].found.value in seen
    ensures HistoryOk(files, seen, path, history + [h])
    ensures AllReads(history + [h]) == AllReads(history) + h.taken
    ensures AllRetired(history + [h]) == WithRetired(AllRetired(history), h.retired)
  {
    var more := history + [h];
    OneMoreRound(history, h);
    hide Books, PastBooks, Grown, RoundOk, AllReads, AllRetired, RoundKept;
    assert RoundKept(files, seen, path, more, |history|) by {
      LastKept(files, seen, path, history, h);
    }
    forall r | 0 <= r < |history|
      ensures RoundKept(files, seen, path, more, r)
    {
      assert RoundKept(files, seen, path, history, r);
      SameKept(files, seen, path, history, more, r);
    }
  }

  lemma OneMoreRound(history: seq<RoundRecord>, h: RoundRecord)
    ensures AllReads(history + [h]) == AllReads(history) + h.taken
    ensures AllRetired(history + [h]) == WithRetired(AllRetired(history), h.retired)
  {
    assert (history + [h])[..|history|] == history;
  }

  lemma LastKept(files: map<Inode, string>, seen: set<Inode>, path: string, history: seq<RoundRecord>, h: RoundRecord)
    requires RoundOk(path, h) && Grown(h.files, files)
    requires history != [] ==> Grown(history[|history| - 1].files, h.files)
    requires Books(files, seen, h.active, h.pending, AllReads(history) + h.taken)
    requires PastBooks(files, seen, h.active, h.pending, WithRetired(AllRetired(history), h.retired),
                       AllReads(history) + h.taken)
    requires !h.failed ==> forall i :: 0 <= i < |h.opens| && h.opens[i].found.Some? ==> h.opens[i].found.value in seen
    ensures RoundKept(files, seen, path, history + [h], |history|)
  {
    hide Books, PastBooks, Grown, RoundOk;
    var more := history + [h];
    assert more[..|history| + 1] == more;
    OneMoreRound(history, h);
    hide AllReads, AllRetired;
  }

  lemma SameKept(files: map<Inode, string>, seen: set<Inode>, path: string, history: seq<RoundRecord>,
                 more: seq<RoundRecord>, r: nat)
    requires r < |history| && history <= more && RoundKept(files, seen, path, history, r)
    ensures RoundKept(files, seen, path, more, r)
  {
    hide Books, PastBooks, Grown, RoundOk, AllReads, AllRetired;
    assert more[..r + 1] == history[..r + 1];
  }

  lemma LastBegan(files: map<Inode, string>, seen: set<Inode>, path: string, history: seq<RoundRecord>)
    requires HistoryOk(files, seen, path, history)
    ensures history != [] ==> Grown(history[|history| - 1].files, files)
  {
    hide Books, PastBooks, Grown, RoundOk, AllReads, AllRetired;
    if history != [] {
      assert RoundKept(files, seen, path, history, |history| - 1);
    }
  }

  lemma {:induction false} ReadsConcatenation(a: seq<RoundRecord>, b: seq<RoundRecord>)
    ensures AllReads(a + b) == AllReads(a) + AllReads(b)
    decreases |b|
  {
    if b == [] {
      assert a + b == a;
    } else {
      var front, last := b[..|b| - 1], b[|b| - 1];
      ReadsConcatenation(a, front);
      assert (a + b)[..|a + b| - 1] == a + front;
      hide AllReads;
      Associative(AllReads(a), AllReads(front), last.taken);
    }
  }

  class LogFollower {
    const disk: LogDisk
    const path: string
    var active: Option<Cursor>
    var seen: set<Inode>
    var pending: seq<Cursor>
    var observation: nat
    var more: bool
    var activity: bool
    ghost var log: seq<Read>       // every read so far
    ghost var queued: seq<Inode>   // every replacement ever queued, in order
    ghost var adopted: seq<Inode>  // those that became the active log, in order
    ghost var retired: seq<Cursor> // the logs that others took the place of
    ghost var history: seq<RoundRecord>

    /** Books are kept of every byte and line; a log is queued once and adopted in turn. */
    ghost predicate Valid()
      reads this, disk
    {
      ValidOn(disk.files)
    }

    ghost predicate ValidOn(files: map<Inode, string>)
      reads this
    {
      && InTurn(seen, pending, queued, adopted) && Books(files, seen, active, pending, log)
      && PastBooks(files, seen, active, pending, retired, log)
    }

    /** Between rounds: the history accounts for every read, and ends where the follower stands. */
    ghost predicate Recorded()
      reads this, disk
    {
      Valid() && RecordedOn(disk.files)
    }

    ghost predicate RecordedOn(files: map<Inode, string>)
      reads this
    {
      && HistoryOk(files, seen, path, history) && |history| == observation
      && log == AllReads(history) && retired == AllRetired(history)
      && (forall k :: 0 <= k < |pending| ==> pending[k].detectedObservation <= observation)
      && (history != [] ==>
            var last := history[|history| - 1];
            last.active == active && last.pending == pending && last.more == more && last.activity == activity)
    }

    /** Why a round fails: a seventeenth log has to wait, or a log has a line that is too long. */
    ghost predicate Stuck(opens: seq<Answer>)
      reads `active, `pending, `seen, disk
    {
      StuckOn(disk.files, opens)
    }

    ghost predicate StuckOn(files: map<Inode, string>, opens: seq<Answer>)
      reads `active, `pending, `seen
    {
      || LongLineOn(files)
      || (|pending| == MAX_PENDING_GENERATIONS && |opens| == 1 && opens[0].found.Some? && opens[0].found.value !in seen)
    }

    /** Some log followed has a line that is too long. */
    ghost predicate LongLine()
      reads `active, `pending, disk
    {
      LongLineOn(disk.files)
    }

    ghost predicate LongLineOn(files: map<Inode, string>)
      reads `active, `pending
    {
      || (active.Some? && Overlong(files, active.value))
      || exists k :: 0 <= k < |pending| && Overlong(files, pending[k])
    }

    /** newLogFollower: an existing log is followed from its end. */
    constructor (disk: LogDisk, path: string)
      modifies disk
      ensures Recorded() && this.disk == disk && this.path == path && log == [] && queued == [] && history == []
      ensures Grown(old(disk.files), disk.files)
      ensures disk.answers == old(disk.answers) + [Answer(path, disk.Named(path))]
      ensures active == match disk.Named(path)
        case None => None
        case Some(inode) =>
          var size := |disk.files[inode]|;
          Some(Cursor(inode, size, size, "", false, false, 0))
    {
      var current := disk.OpenPath(path);
      this.disk, this.path, pending, observation, more, activity := disk, path, [], 0, false, false;
      log, queued, adopted, retired, history := [], [], [], [], [];
      if current.Some? {
        var size := |disk.files[current.value]|;
        active, seen := Some(Cursor(current.value, size, size, "", false, false, 0)), {current.value};
      } else {
        active, seen := None, {};
      }
    }

    /** A read of the active log, if there is one. */
    method ReadActive(remaining: nat) returns (ok: bool, lines: seq<string>, left: nat)
      requires Valid()
      modifies this`active, this`more, this`activity, this`log, disk`files, disk`names
      ensures disk.still ==> unchanged(disk`files, disk`names)
      ensures Valid() && Grown(old(disk.files), disk.files) && SameLog(old(active), active)
      ensures ok ==> left <= remaining && Handed(old(log), log, lines, remaining - left)
      ensures ok ==> (activity <==> old(activity) || left < remaining) && (more ==> left == 0)
      ensures ok && !more && active.Some? ==> UpToDate(old(disk.files), active.value)
      ensures !ok ==> active == old(active) && log == old(log) && active.Some? && Overlong(disk.files, active.value)
    {
      hide InTurn, Books, PastBooks, CursorOk, ReadOn, Overlong, Handed, UpToDate, LinesOf;
      if active.None? {
        more := false;
        NothingHanded(log);
        return true, [], remaining;
      }
      var c := active.value;
      BooksStart(disk.files, seen, c, pending, log);
      var next;
      ok, next, lines, left := ReadCurrent(disk, c, remaining, LinesOf(log, c.inode));
      if !ok {
        StillValid(old(disk.files));
        return;
      }
      ActiveRead(old(disk.files), disk.files, seen, c, next, pending, log, lines, remaining - left);
      PastRead(old(disk.files), disk.files, seen, Some(c), Some(next), pending, pending, retired, log,
        Read(c.inode, remaining - left, lines));
      active, more, activity := Some(next), next.more, activity || left < remaining;
      log := log + [Read(c.inode, remaining - left, lines)];
    }

    /** A read of one queued log. */
    method ReadPending(index: nat, remaining: nat) returns (ok: bool, lines: seq<string>, left: nat)
      requires Valid() && index < |pending|
      modifies this`pending, this`activity, this`log, disk`files, disk`names
      ensures disk.still ==> unchanged(disk`files, disk`names)
      ensures Valid() && Grown(old(disk.files), disk.files)
      ensures |pending| == |old(pending)| && InodesOf(pending) == InodesOf(old(pending))
      ensures pending[index].inode == old(pending)[index].inode
      ensures pending[index].detectedObservation == old(pending)[index].detectedObservation
      ensures forall k :: 0 <= k < |pending| && k != index ==> pending[k] == old(pending)[k]
      ensures ok ==> left <= remaining && Handed(old(log), log, lines, remaining - left)
      ensures ok ==> (activity <==> old(activity) || left < remaining)
      ensures ok ==> if pending[index].more then left == 0 else UpToDate(old(disk.files), pending[index])
      ensures !ok ==> pending == old(pending) && log == old(log) && Overlong(disk.files, pending[index])
    {
      hide InTurn, Books, PastBooks, CursorOk, ReadOn, Overlong, Handed, UpToDate, LinesOf;
      var c := pending[index].(more := false, activity := false);
      PendingStart(disk.files, seen, active, pending, log, index);
      var next;
      ok, next, lines, left := ReadCurrent(disk, c, remaining, LinesOf(log, c.inode));
      if !ok {
        OverlongSame(disk.files, c, pending[index]);
        StillValid(old(disk.files));
        return;
      }
      PendingRead(old(disk.files), disk.files, seen, active, pending, queued, adopted, log, index, next, lines,
        remaining - left);
      assert InodesOf(pending)[index] == c.inode;
      PastRead(old(disk.files), disk.files, seen, active, active, pending, pending[index := next], retired, log,
        Read(c.inode, remaining - left, lines));
      pending, activity := pending[index := next], activity || left < remaining;
      log := log + [Read(c.inode, remaining - left, lines)];
    }

    /** A replacement that the path names now is queued, unless it was seen before. */
    method Detect(found: Option<Inode>) returns (ok: bool)
      requires Valid() && (found.Some? ==> found.value in disk.files)
      modifies this`seen, this`pending, this`queued, this`activity
      ensures Valid() && old(seen) <= seen && Waited(old(pending), pending, observation)
      ensures ok ==> queued == old(queued) + Unseen(old(seen), found) && (found.Some? ==> found.value in seen)
      ensures ok ==>
        (activity <==> old(activity) || (found.Some? && !(active.Some? && active.value.inode == found.value)))
      ensures !ok ==>
        queued == old(queued) && |pending| == MAX_PENDING_GENERATIONS && found.Some? && found.value !in seen
    {
      hide Accounted;
      if found.None? || (active.Some? && active.value.inode == found.value) {
        return true;
      }
      var inode := found.value;
      activity := true;
      if inode in seen {
        return true;
      }
      if |pending| >= MAX_PENDING_GENERATIONS {
        return false;
      }
      Enqueue(inode);
      return true;
    }

    /** A new log at the end of the queue, to be read from its beginning. */
    method Enqueue(inode: Inode)
      requires Valid() && inode in disk.files && inode !in seen && |pending| < MAX_PENDING_GENERATIONS
      modifies this`seen, this`pending, this`queued
      ensures Valid() && seen == old(seen) + {inode} && queued == old(queued) + [inode]
      ensures |pending| == |old(pending)| + 1 && old(pending) <= pending
      ensures pending[|old(pending)|].detectedObservation == observation
    {
      hide InTurn, Books, PastBooks;
      var c := Cursor(inode, 0, 0, "", false, false, observation);
      BooksQueue(disk.files, seen, active, pending, c, log);
      PastQueue(disk.files, seen, active, pending, c, retired, log);
      QueueInTurn(seen, pending, c, queued, adopted);
      seen, pending, queued := seen + {inode}, pending + [c], queued + [inode];
    }

    /** Every queued log in turn, from what is left of the budget. */
    method ReadQueue(remaining: nat) returns (ok: bool, lines: seq<string>, left: nat)
      requires Valid()
      modifies this`pending, this`activity, this`log, disk`files, disk`names
      ensures disk.still ==> unchanged(disk`files, disk`names)
      ensures Valid() && Grown(old(disk.files), disk.files)
      ensures |pending| == |old(pending)| && SameDetection(old(pending), pending) && old(log) <= log
      ensures ok ==> left <= remaining && Handed(old(log), log, lines, remaining - left)
      ensures ok ==> (activity <==> old(activity) || left < remaining)
      ensures ok ==> QueueRead(old(disk.files), left)
      ensures !ok ==> exists k :: 0 <= k < |pending| && Overlong(disk.files, pending[k])
    {
      hide InTurn, Books, PastBooks, Overlong, Handed, Grown, UpToDate, SameDetection;
      NothingDetected(pending);
      lines, left := [], remaining;
      NothingHanded(log);
      NothingGrown(disk.files);
      var i := 0;
      while i < |pending|
        invariant disk.still ==> unchanged(disk`files, disk`names)
        invariant 0 <= i <= |pending| && Grown(old(disk.files), disk.files) && Valid()
        invariant |pending| == |old(pending)| && SameDetection(old(pending), pending) && old(log) <= log
        invariant forall k :: 0 <= k < i ==>
          if pending[k].more then left == 0 else UpToDate(old(disk.files), pending[k])
        invariant left <= remaining && Handed(old(log), log, lines, remaining - left)
        invariant activity <==> old(activity) || left < remaining
      {
        ghost var before, files, rest, queue := log, disk.files, left, pending;
        var current;
        ok, current, left := ReadPending(i, left);
        GrownTransitive(old(disk.files), files, disk.files);
        if !ok {
          return;
        }
        CaughtUpBefore(old(disk.files), files, pending[i]);
        HandedMore(old(log), before, log, lines, current, remaining - rest, rest - left);
        HandedPrefix(old(log), log, lines + current, remaining - left);
        DetectedStill(old(pending), queue, pending, i);
        lines := lines + current;
        i := i + 1;
      }
      ok := true;
    }

    /** A queued log is read to its end, or the budget is spent. */
    ghost predicate QueueRead(files: map<Inode, string>, left: nat)
      reads this
    {
      forall k :: 0 <= k < |pending| ==> if pending[k].more then left == 0 else UpToDate(files, pending[k])
    }

    /** The head of the queue becomes the active log once both are read and a later round has come. */
    method Adopt(elapsed: bool)
      requires Valid()
      modifies this`active, this`pending, this`adopted, this`retired, this`activity
      ensures Valid() && (activity <==> old(activity) || adopted != old(adopted))
      ensures adopted != old(adopted) <==>
        && old(pending) != [] && !more && !old(pending)[0].more && elapsed
        && old(pending)[0].detectedObservation < observation
      ensures if adopted == old(adopted)
        then active == old(active) && pending == old(pending) && retired == old(retired)
        else && retired == WithRetired(old(retired), old(active)) && adopted == old(adopted) + [old(pending)[0].inode]
             && active == Some(old(pending)[0]) && pending == old(pending)[1..]
    {
      hide Accounted;
      if pending == [] {
        return;
      }
      var first := pending[0];
      if !more && !first.more && observation > first.detectedObservation && elapsed {
        assert InodesOf(pending) == [first.inode] + InodesOf(pending[1..]);
        SuffixDistinct(adopted, InodesOf(pending));
        SuffixDistinct([first.inode], InodesOf(pending[1..]));
        assert first.inode in queued && first.inode in [first.inode];
        Associative(adopted, [first.inode], InodesOf(pending[1..]));
        hide AllAccounted;
        assert Accounted(disk.files, first, log) by {
          FirstAccounted(disk.files, pending, log);
        }
        assert AllAccounted(disk.files, pending[1..], log) by {
          FirstAccounted(disk.files, pending, log);
        }
        PastAdopts(disk.files, seen, active, pending, retired, log);
        hide PastBooks, WithRetired;
        retired := WithRetired(retired, active);
        active, pending, adopted, activity := Some(first), pending[1..], adopted + [first.inode], true;
      }
    }

    /** The active log, what the path names now, and the active log again. */
    method ReadActiveTwice() returns (ok: bool, lines: seq<string>, left: nat, ghost opens: seq<Answer>)
      requires Valid()
      modifies this`active, this`seen, this`pending, this`queued, this`more, this`activity, this`log, disk
      ensures disk.still ==> unchanged(disk`files, disk`names)
      ensures Valid() && Grown(old(disk.files), disk.files) && old(log) <= log && old(seen) <= seen
      ensures SameLog(old(active), active) && Waited(old(pending), pending, observation)
      ensures disk.still && opens != [] ==> opens == [Answer(path, old(disk.Named(path)))]
      ensures disk.answers == old(disk.answers) + opens && forall i :: 0 <= i < |opens| ==> opens[i].path == path
      ensures ok ==> left <= MAX_INPUT_BYTES && Handed(old(log), log, lines, MAX_INPUT_BYTES - left)
      ensures ok ==> (activity <==> old(activity) || left < MAX_INPUT_BYTES || !AtPath(active, opens))
      ensures ok && more ==> left == 0
      ensures ok && !more && active.Some? ==> UpToDate(old(disk.files), active.value)
      ensures ok ==> LookedUp(opens) && queued == old(queued) + Unseen(old(seen), opens[0].found)
      ensures !ok ==> Stuck(opens)
      ensures queued == old(queued) || (opens != [] && queued == old(queued) + Unseen(old(seen), opens[0].found))
    {
      hide InTurn, Books, PastBooks, Overlong, Handed, Grown, UpToDate, Waited, AtPath, Unseen;
      WaitedFor(pending, observation);
      opens := [];
      ok, lines, left := ReadActive(MAX_INPUT_BYTES);
      if !ok {
        return;
      }
      ghost var log1, files1, left1 := log, disk.files, left;
      HandedPrefix(old(log), log1, lines, MAX_INPUT_BYTES - left);
      var found := disk.OpenPath(path);
      opens := [Answer(path, found)];
      FoundAtPath(active, path, found);
      StillValid(files1);
      GrownTransitive(old(disk.files), files1, disk.files);
      ok := Detect(found);
      if !ok {
        return;
      }
      ghost var files2 := disk.files;
      var current;
      ok, current, left := ReadActive(left);
      GrownTransitive(old(disk.files), files2, disk.files);
      if !ok {
        return;
      }
      if active.Some? {
        CaughtUpBefore(old(disk.files), files2, active.value);
      }
      FoundAtPath(active, path, found);
      HandedMore(old(log), log1, log, lines, current, MAX_INPUT_BYTES - left1, left1 - left);
      lines := lines + current;
      HandedPrefix(old(log), log, lines, MAX_INPUT_BYTES - left);
    }

    /** The path was opened, and the log there is known. */
    ghost predicate LookedUp(opens: seq<Answer>)
      reads `seen
    {
      |opens| == 1 && (opens[0].found.Some? ==> opens[0].found.value in seen)
    }

    /** The queue, and the active log once more before an adoption. */
    method ReadQueueAndActive(remaining: nat) returns (ok: bool, lines: seq<string>, left: nat)
      requires Valid()
      modifies this`active, this`pending, this`more, this`activity, this`log, disk`files, disk`names
      ensures disk.still ==> unchanged(disk`files, disk`names)
      ensures Valid() && Grown(old(disk.files), disk.files) && old(log) <= log && SameLog(old(active), active)
      ensures |pending| == |old(pending)| && SameDetection(old(pending), pending)
      ensures ok ==> left <= remaining && Handed(old(log), log, lines, remaining - left)
      ensures ok ==> (activity <==> old(activity) || left < remaining)
      ensures ok && more ==> left == 0 || old(more)
      ensures ok && !more && active.Some? ==>
        (active == old(active) && !old(more)) || UpToDate(old(disk.files), active.value)
      ensures ok ==> QueueRead(old(disk.files), left)
      ensures !ok ==> LongLine()
    {
      hide InTurn, Books, PastBooks, Overlong, Handed, Grown, UpToDate;
      ok, lines, left := ReadQueue(remaining);
      if !ok || pending == [] || active.None? {
        return;
      }
      ghost var log1, files1, left1 := log, disk.files, left;
      var current;
      ok, current, left := ReadActive(left);
      GrownTransitive(old(disk.files), files1, disk.files);
      if !ok {
        return;
      }
      CaughtUpBefore(old(disk.files), files1, active.value);
      HandedMore(old(log), log1, log, lines, current, remaining - left1, left1 - left);
      lines := lines + current;
      HandedPrefix(old(log), log, lines, remaining - left);
    }

    /** The reads of one round, in their order: active, path, active, queue, and active again before an adoption. */
    method ReadRound() returns (ok: bool, lines: seq<string>, left: nat, ghost opens: seq<Answer>)
      requires Valid()
      modifies this`active, this`seen, this`pending, this`queued, this`more, this`activity, this`log, disk
      ensures disk.still ==> unchanged(disk`files, disk`names)
      ensures Valid() && Grown(old(disk.files), disk.files) && old(log) <= log && old(seen) <= seen
      ensures SameLog(old(active), active) && Waited(old(pending), pending, observation)
      ensures disk.still && opens != [] ==> opens == [Answer(path, old(disk.Named(path)))]
      ensures disk.answers == old(disk.answers) + opens && forall i :: 0 <= i < |opens| ==> opens[i].path == path
      ensures ok ==> left <= MAX_INPUT_BYTES && Handed(old(log), log, lines, MAX_INPUT_BYTES - left)
      ensures ok ==> (activity <==> old(activity) || left < MAX_INPUT_BYTES || !AtPath(active, opens))
      ensures ok && more ==> left == 0
      ensures ok && !more && active.Some? ==> UpToDate(old(disk.files), active.value)
      ensures ok ==> QueueRead(old(disk.files), left) && LookedUp(opens)
      ensures ok ==> queued == old(queued) + Unseen(old(seen), opens[0].found)
      ensures !ok ==> Stuck(opens)
      ensures queued == old(queued) || (opens != [] && queued == old(queued) + Unseen(old(seen), opens[0].found))
    {
      hide InTurn, Books, PastBooks, Overlong, Handed, Grown, UpToDate;
      ok, lines, left, opens := ReadActiveTwice();
      if !ok {
        return;
      }
      ghost var log1, files1, left1 := log, disk.files, left;
      var current;
      ok, current, left := ReadQueueAndActive(left);
      GrownTransitive(old(disk.files), files1, disk.files);
      if !ok {
        return;
      }
      if active.Some? {
        CaughtUpBefore(old(disk.files), files1, active.value);
      }
      forall k | 0 <= k < |pending| && !pending[k].more
        ensures UpToDate(old(disk.files), pending[k])
      {
        CaughtUpBefore(old(disk.files), files1, pending[k]);
      }
      HandedMore(old(log), log1, log, lines, current, MAX_INPUT_BYTES - left1, left1 - left);
      lines := lines + current;
      HandedPrefix(old(log), log, lines, MAX_INPUT_BYTES - left);
    }

    lemma StillValid(before: map<Inode, string>)
      requires Grown(before, disk.files) && ValidOn(before)
      ensures Valid()
    {
      hide InTurn, Books, PastBooks;
      BooksGrow(before, disk.files, seen, active, pending, log);
      PastGrows(before, disk.files, seen, seen, active, pending, retired, log);
    }

    lemma StillRecorded(before: map<Inode, string>)
      requires Grown(before, disk.files) && ValidOn(before) && RecordedOn(before)
      ensures Recorded()
    {
      StillValid(before);
      HistoryGrows(before, disk.files, seen, seen, path, history);
      hide HistoryOk, InTurn, Books, PastBooks;
    }

    lemma StillStuck(before: map<Inode, string>, opens: seq<Answer>)
      requires Grown(before, disk.files) && StuckOn(before, opens)
      ensures Stuck(opens)
    {
      hide Overlong, Grown;
      if active.Some? && Overlong(before, active.value) {
        OverlongGrows(before, disk.files, active.value);
      }
      if k :| 0 <= k < |pending| && Overlong(before, pending[k]) {
        OverlongGrows(before, disk.files, pending[k]);
      }
    }

    /** The reads of a round and its end. */
    method RunRound(elapsed: bool)
        returns (ok: bool, lines: seq<string>, ghost left: nat, ghost opens: seq<Answer>, ghost leaves: Option<Cursor>)
      requires Valid() && !more && !activity
      requires forall k :: 0 <= k < |pending| ==> pending[k].detectedObservation < observation
      modifies this`active, this`seen, this`pending, this`queued, this`adopted, this`retired, this`more, this`activity,
               this`log, disk
      ensures disk.still ==> unchanged(disk`files, disk`names)
      ensures Valid() && Grown(old(disk.files), disk.files) && old(log) <= log && old(seen) <= seen
      ensures disk.still && opens != [] ==> opens == [Answer(path, old(disk.Named(path)))]
      ensures disk.answers == old(disk.answers) + opens && forall i :: 0 <= i < |opens| ==> opens[i].path == path
      ensures forall k :: 0 <= k < |pending| ==> pending[k].detectedObservation <= observation
      ensures Turned(old(queued), queued, old(seen), opens, ok) && retired == WithRetired(old(retired), leaves)
      ensures if adopted == old(adopted) then SameLog(old(active), active) && leaves.None?
        else && ok && elapsed && old(pending) != [] && adopted == old(adopted) + [old(pending)[0].inode]
             && SameLog(old(active), leaves)
      ensures ok && elapsed && !more && old(pending) != [] ==> adopted != old(adopted)
      ensures leaves.Some? ==> UpToDate(old(disk.files), leaves.value)
      ensures ok ==> left <= MAX_INPUT_BYTES && Handed(old(log), log, lines, MAX_INPUT_BYTES - left) && LookedUp(opens)
      ensures ok ==> (activity <==> left < MAX_INPUT_BYTES || adopted != old(adopted) || !AtPath(active, opens))
      ensures ok ==> if more then left == 0 else AllRead(old(disk.files))
      ensures !ok ==> Stuck(opens) && lines == []
    {
      hide InTurn, Books, PastBooks, Overlong, Handed, Grown, UpToDate, StuckOn, LongLine, AtPath, WithRetired;
      ghost var files, before := disk.files, active;
      ok, lines, left, opens := ReadRound();
      if !ok {
        NoneRetires(retired);
        return false, [], left, opens, None;
      }
      leaves := FinishRound(elapsed, files, left);
    }

    /** Everything that was in the logs followed is read. */
    ghost predicate AllRead(files: map<Inode, string>)
      reads `active, `pending
    {
      && (active.Some? ==> UpToDate(files, active.value))
      && forall k :: 0 <= k < |pending| ==> UpToDate(files, pending[k])
    }

    /**
     * readAvailableContext, one round. At most 1 MiB is read over all logs together; the lines are
     * those the reads completed; a replacement is queued at most once and adopted in turn, when the
     * log before it is read to its end. The round is recorded, failed or not.
     */
    method ReadAvailable(elapsed: bool) returns (ok: bool, lines: seq<string>)
      requires Recorded()
      modifies this, disk
      ensures disk.still ==> unchanged(disk`files, disk`names)
      ensures Recorded() && Grown(old(disk.files), disk.files)
      ensures |history| == |old(history)| + 1 && old(history) <= history
      ensures var round := history[|history| - 1];
        && round.files == old(disk.files) && round.failed == !ok && lines == round.Lines()
        && disk.answers == old(disk.answers) + round.opens
        && (disk.still && round.opens != [] ==> round.opens == [Answer(path, old(disk.Named(path)))])
        && (!ok ==> Stuck(round.opens))
        && (round.adopts <==> adopted != old(adopted))
        && (if round.adopts then SameLog(old(active), round.retired) else SameLog(old(active), active))
        && Turned(old(queued), queued, old(seen), round.opens, ok)
      ensures adopted == old(adopted)
        || (ok && elapsed && old(pending) != [] && adopted == old(adopted) + [old(pending)[0].inode])
      ensures ok && elapsed && !more && old(pending) != [] ==> adopted != old(adopted)
    {
      hide InTurn, Books, PastBooks, HistoryOk, RoundOk, Overlong, Handed, Grown, UpToDate, LongLine, StuckOn, AllReads,
        TotalLength, AllLines, Turned, AtPath, AllRetired, WithRetired;
      ghost var begun, logged, turns := disk.files, log, adopted;
      LastBegan(begun, seen, path, history);
      observation, more, activity := observation + 1, false, false;
      ghost var left, opens, leaves;
      ok, lines, left, opens, leaves := RunRound(elapsed);
      if ok {
        HandedIs(logged, log, lines, MAX_INPUT_BYTES - left);
      }
      ghost var round := RoundRecord(begun, opens, log[|logged|..], active, pending, adopted != turns, leaves, more,
        activity, !ok);
      assert log == logged + round.taken;
      RoundDone(path, round, left);
      HistoryGrows(begun, disk.files, old(seen), seen, path, history);
      Record(round);
    }

    ghost method Record(round: RoundRecord)
      requires Valid() && HistoryOk(disk.files, seen, path, history) && log == AllReads(history) + round.taken
      requires RoundOk(path, round) && Grown(round.files, disk.files) && |history| + 1 == observation
      requires history != [] ==> Grown(history[|history| - 1].files, round.files)
      requires forall k :: 0 <= k < |pending| ==> pending[k].detectedObservation <= observation
      requires round.active == active && round.pending == pending && round.more == more && round.activity == activity
      requires retired == WithRetired(AllRetired(history), round.retired)
      requires !round.failed ==>
        forall i :: 0 <= i < |round.opens| && round.opens[i].found.Some? ==> round.opens[i].found.value in seen
      modifies this`history
      ensures Recorded() && history == old(history) + [round]
    {
      hide InTurn, Books, PastBooks, HistoryOk, RoundOk, Grown, AllReads, AllRetired, WithRetired;
      HistoryMore(disk.files, seen, path, history, round);
      history := history + [round];
    }

    /** The end of a round: an adoption, and whether a backlog is left. */
    method FinishRound(elapsed: bool, ghost files: map<Inode, string>, ghost left: nat)
        returns (ghost leaves: Option<Cursor>)
      requires Valid() && QueueRead(files, left) && (more ==> left == 0)
      requires !more && active.Some? ==> UpToDate(files, active.value)
      modifies this`active, this`pending, this`adopted, this`retired, this`more, this`activity
      ensures Valid() && (activity <==> old(activity) || adopted != old(adopted))
      ensures if adopted == old(adopted) then active == old(active) && pending == old(pending) && leaves.None?
        else && old(pending) != [] && elapsed && old(pending)[0].detectedObservation < observation
             && adopted == old(adopted) + [old(pending)[0].inode]
             && active == Some(old(pending)[0]) && pending == old(pending)[1..] && leaves == old(active)
      ensures elapsed && !more && old(pending) != [] && old(pending)[0].detectedObservation < observation ==>
        adopted != old(adopted)
      ensures leaves.Some? ==> UpToDate(files, leaves.value)
      ensures retired == WithRetired(old(retired), leaves)
      ensures if more then left == 0 else AllRead(files)
    {
      hide InTurn, Books, PastBooks, Accounted, UpToDate;
      ghost var before, turns := active, adopted;
      Adopt(elapsed);
      leaves := if adopted != turns then before else None;
      var backlog := more;
      for i := 0 to |pending|
        invariant backlog <==> more || exists k :: 0 <= k < i && pending[k].more
      {
        backlog := backlog || pending[i].more;
      }
      more := backlog;
    }
  }

  /** What the steps of a round come to. */
  lemma RoundDone(path: string, r: RoundRecord, left: nat)
    requires forall i :: 0 <= i < |r.opens| ==> r.opens[i].path == path
    requires r.retired.Some? ==> UpToDate(r.files, r.retired.value)
    requires !r.failed ==> |r.opens| == 1 && left <= MAX_INPUT_BYTES && r.Used() == MAX_INPUT_BYTES - left
    requires !r.failed ==> if r.more then left == 0 else r.CaughtUp()
    requires !r.failed ==> (r.activity <==> left < MAX_INPUT_BYTES || r.adopts || !AtPath(r.active, r.opens))
    ensures RoundOk(path, r)
  {
  }

  /** Queued logs keep their order and the round in which they were found. */
  predicate SameDetection(before: seq<Cursor>, after: seq<Cursor>) {
    |before| <= |after| &&
      forall k :: 0 <= k < |before| ==>
        after[k].inode == before[k].inode && after[k].detectedObservation == before[k].detectedObservation
  }

  lemma NothingDetected(cursors: seq<Cursor>)
    ensures SameDetection(cursors, cursors)
  {
  }

  lemma DetectedStill(first: seq<Cursor>, before: seq<Cursor>, after: seq<Cursor>, index: nat)
    requires SameDetection(first, before) && |before| == |after| && index < |before|
    requires after[index].inode == before[index].inode
    requires after[index].detectedObservation == before[index].detectedObservation
    requires forall k :: 0 <= k < |after| && k != index ==> after[k] == before[k]
    ensures SameDetection(first, after)
  {
  }

  lemma WaitedFor(cursors: seq<Cursor>, observation: nat)
    ensures Waited(cursors, cursors, observation)
  {
  }

  lemma FoundAtPath(active: Option<Cursor>, path: string, found: Option<Inode>)
    ensures AtPath(active, [Answer(path, found)]) <==>
      found.None? || (active.Some? && active.value.inode == found.value)
  {
    assert [Answer(path, found)][0].found == found;
  }

  /** Those queued since were found in this round. */
  predicate Waited(before: seq<Cursor>, after: seq<Cursor>, observation: nat) {
    && SameDetection(before, after)
    && forall k :: |before| <= k < |after| ==> after[k].detectedObservation == observation
  }

  ghost predicate Handed(before: seq<Read>, after: seq<Read>, lines: seq<string>, used: nat) {
    before <= after && AllLines(after[|before|..]) == lines && TotalLength(after[|before|..]) == used
  }

  lemma HandedPrefix(before: seq<Read>, after: seq<Read>, lines: seq<string>, used: nat)
    requires Handed(before, after, lines, used)
    ensures before <= after
  {
  }

  lemma HandedIs(before: seq<Read>, after: seq<Read>, lines: seq<string>, used: nat)
    requires Handed(before, after, lines, used)
    ensures before <= after && AllLines(after[|before|..]) == lines && TotalLength(after[|before|..]) == used
  {
  }

  lemma OverlongSame(files: map<Inode, string>, c: Cursor, d: Cursor)
    requires c.inode == d.inode && c.start == d.start
    ensures Overlong(files, c) <==> Overlong(files, d)
  {
    hide PushAll;
  }

  /** The same log, whose reading may have moved on, or none. */
  predicate SameLog(before: Option<Cursor>, after: Option<Cursor>) {
    before.Some? == after.Some? &&
      (before.Some? ==> before.value.inode == after.value.inode && before.value.start == after.value.start)
  }

  /** What is read to a later end is read to the earlier one. */
  lemma CaughtUpBefore(before: map<Inode, string>, after: map<Inode, string>, c: Cursor)
    requires Grown(before, after)
    ensures UpToDate(after, c) ==> UpToDate(before, c)
  {
  }

  lemma NothingHanded(log: seq<Read>)
    ensures Handed(log, log, [], 0)
  {
  }

  lemma OneHanded(log: seq<Read>, r: Read)
    ensures Handed(log, log + [r], r.lines, r.length)
  {
    assert (log + [r])[|log|..] == [r];
    assert [r][..0] == [];
    assert AllLines([r]) == AllLines([]) + r.lines == r.lines;
  }

  lemma {:induction false} LogConcatenation(a: seq<Read>, b: seq<Read>)
    ensures AllLines(a + b) == AllLines(a) + AllLines(b) && TotalLength(a + b) == TotalLength(a) + TotalLength(b)
    decreases |b|
  {
    if b == [] {
      assert a + b == a;
    } else {
      var front, last := b[..|b| - 1], b[|b| - 1];
      LogConcatenation(a, front);
      assert a + b == (a + front) + [last];
      assert b == front + [last];
      OneMoreRead(a + front, last);
      OneMoreRead(front, last);
      hide AllLines, TotalLength;
      Associative(AllLines(a), AllLines(front), last.lines);
    }
  }

  lemma HandedMore(a: seq<Read>, b: seq<Read>, c: seq<Read>, x: seq<string>, y: seq<string>, m: nat, n: nat)
    requires Handed(a, b, x, m) && Handed(b, c, y, n)
    ensures Handed(a, c, x + y, m + n)
  {
    LogConcatenation(b[|a|..], c[|b|..]);
    assert b == c[..|b|];
    assert c[|a|..] == b[|a|..] + c[|b|..];
  }

  lemma FirstAccounted(files: map<Inode, string>, cursors: seq<Cursor>, log: seq<Read>)
    requires AllAccounted(files, cursors, log) && cursors != []
    ensures Accounted(files, cursors[0], log) && AllAccounted(files, cursors[1..], log)
  {
    hide Accounted;
  }

  lemma NewCursor(files: map<Inode, string>, c: Cursor, log: seq<Read>)
    requires c.inode in files && c.start == c.offset == 0 && c.remainder == ""
    requires LengthOf(log, c.inode) == 0 && LinesOf(log, c.inode) == []
    ensures Accounted(files, c, log)
  {
  }

  lemma MoreInodes(cursors: seq<Cursor>, c: Cursor)
    ensures InodesOf(cursors + [c]) == InodesOf(cursors) + [c.inode]
  {
  }

  lemma AllAccountedMore(files: map<Inode, string>, cursors: seq<Cursor>, c: Cursor, log: seq<Read>)
    requires AllAccounted(files, cursors, log) && Accounted(files, c, log)
    ensures AllAccounted(files, cursors + [c], log)
  {
    hide Accounted;
  }

  lemma ResetOk(files: map<Inode, string>, c: Cursor, log: seq<Read>)
    requires Accounted(files, c, log)
    ensures Accounted(files, c.(more := false, activity := false), log)
  {
    hide PushAll;
  }

  lemma SuffixDistinct(front: seq<Inode>, back: seq<Inode>)
    requires NoInodeTwice(front + back)
    ensures NoInodeTwice(front) && NoInodeTwice(back)
    ensures forall i :: i in front ==> i !in back
  {
    var all := front + back;
    forall i, k | 0 <= i < k < |back|
      ensures back[i] != back[k]
    {
      assert all[|front| + i] != all[|front| + k];
    }
    forall i, k | 0 <= i < |front| && 0 <= k < |back|
      ensures front[i] != back[k]
    {
      assert all[i] != all[|front| + k];
    }
    forall i, k | 0 <= i < k < |front|
      ensures front[i] != front[k]
    {
      assert all[i] != all[k];
    }
  }

  lemma SameInodes(cursors: seq<Cursor>, index: nat, next: Cursor)
    requires index < |cursors| && next.inode == cursors[index].inode
    ensures InodesOf(cursors[index := next]) == InodesOf(cursors)
  {
  }

  lemma OthersAccounted(before: map<Inode, string>, after: map<Inode, string>, cursors: seq<Cursor>, index: nat,
                        next: Cursor,
                        log: seq<Read>, r: Read)
    requires AllAccounted(before, cursors, log) && Grown(before, after) && NoInodeTwice(InodesOf(cursors))
    requires index < |cursors| && r.inode == next.inode == cursors[index].inode && Accounted(after, next, log + [r])
    ensures AllAccounted(after, cursors[index := next], log + [r])
  {
    hide Accounted, Grown;
    forall i | 0 <= i < |cursors| && i != index
      ensures Accounted(after, cursors[i], log + [r])
    {
      assert InodesOf(cursors)[i] != InodesOf(cursors)[index];
      AccountedGrows(before, after, cursors[i], log);
      AccountedOther(after, cursors[i], log, r);
    }
  }

  /** A log that was read is followed now or was before. */
  ghost predicate FollowedBy(f: LogFollower, c: Cursor)
    reads f
  {
    f.active == Some(c) || c in f.pending || c in f.retired
  }

  /**
   * Follower exactness: for every log that was ever followed, the lines handed out so far and the
   * remainder are the complete-line split of exactly the bytes from its start to its offset.
   */
  lemma FollowedExactly(f: LogFollower, c: Cursor)
    requires f.Valid() && FollowedBy(f, c)
    ensures c.inode in f.disk.files && c.start <= c.offset <= |f.disk.files[c.inode]|
    ensures var pieces := Split(f.disk.files[c.inode][c.start..c.offset], '\n');
      && LinesOf(f.log, c.inode) == TrimAll(pieces[..|pieces| - 1]) && c.remainder == pieces[|pieces| - 1]
      && AllShort(pieces) && LengthOf(f.log, c.inode) == c.offset - c.start
  {
    hide InTurn, Accounted, IsFollowed;
    assert Accounted(f.disk.files, c, f.log);
    hide Books, PastBooks;
    SplitOf(f.disk.files, c, f.log);
  }

  /** The line is one of the complete lines of the bytes read. */
  ghost predicate HoldsLine(files: map<Inode, string>, c: Cursor, line: string) {
    && c.inode in files && c.start <= c.offset <= |files[c.inode]|
    && var pieces := Split(files[c.inode][c.start..c.offset], '\n'); line in TrimAll(pieces[..|pieces| - 1])
  }

  /** No line is made up: each one handed out is a complete line of a log that was followed. */
  lemma LinesAreThere(f: LogFollower, line: string) returns (c: Cursor)
    requires f.Valid() && line in AllLines(f.log)
    ensures FollowedBy(f, c) && HoldsLine(f.disk.files, c, line)
  {
    hide InTurn, Books, AllAccounted, LinesOf, LengthOf, AllLines, TrimAll, Split;
    var inode := ReadOf(f.log, line);
    assert IsFollowed(f.active, f.pending, f.retired, inode);
    if inode in InodesOf(f.retired) {
      var k :| 0 <= k < |f.retired| && InodesOf(f.retired)[k] == inode;
      c := f.retired[k];
    } else if inode in InodesOf(f.pending) {
      var k :| 0 <= k < |f.pending| && InodesOf(f.pending)[k] == inode;
      c := f.pending[k];
    } else {
      c := f.active.value;
    }
    hide PastBooks;
    FollowedExactly(f, c);
  }

  /** The log a line comes from. */
  lemma {:induction false} ReadOf(log: seq<Read>, line: string) returns (inode: Inode)
    requires line in AllLines(log)
    ensures line in LinesOf(log, inode) && exists r :: r in log && r.inode == inode
    decreases |log|
  {
    var front, last := log[..|log| - 1], log[|log| - 1];
    if line in last.lines {
      inode := last.inode;
      assert last in log;
    } else {
      inode := ReadOf(front, line);
      var r :| r in front && r.inode == inode;
      assert r in log;
    }
  }

  lemma SplitOf(files: map<Inode, string>, c: Cursor, log: seq<Read>)
    requires Accounted(files, c, log)
    ensures c.inode in files && c.start <= c.offset <= |files[c.inode]|
    ensures var pieces := Split(files[c.inode][c.start..c.offset], '\n');
      && LinesOf(log, c.inode) == TrimAll(pieces[..|pieces| - 1]) && c.remainder == pieces[|pieces| - 1]
      && AllShort(pieces) && LengthOf(log, c.inode) == c.offset - c.start
  {
    hide PushAll, Split, LinesOf, LengthOf;
    var pieces := Split(files[c.inode][c.start..c.offset], '\n');
    AssembledIsSplit([], files[c.inode][c.start..c.offset]);
    assert [] + TrimAll(pieces[..|pieces| - 1]) == TrimAll(pieces[..|pieces| - 1]);
  }
}
