/**
 * The readiness monitor on its followers: what a round reports is what the followers read, and
 * onReady fires only after two rounds in which no follower read, queued or missed anything.
 */
module Monitoring {
  import opened Prelude
  import opened LogFollowing
  import opened Readiness

  /** The lines of a batch, by the signatures. */
  function Classified(classify: string -> Line, texts: seq<string>): (lines: seq<Line>)
    ensures |lines| == |texts| && forall i :: 0 <= i < |texts| ==> lines[i] == classify(texts[i])
  {
    if texts == [] then [] else [classify(texts[0])] + Classified(classify, texts[1..])
  }

  lemma ClassifiedSum(classify: string -> Line, a: seq<string>, b: seq<string>)
    ensures Classified(classify, a + b) == Classified(classify, a) + Classified(classify, b)
  {
    hide Classified;
    var all, x, y := Classified(classify, a + b), Classified(classify, a), Classified(classify, b);
    forall i | 0 <= i < |all|
      ensures all[i] == (x + y)[i]
    {
      assert (a + b)[i] == if i < |a| then a[i] else b[i - |a|];
    }
  }

  /** The lines one source contributes to a round, and to all rounds. */
  function LinesIn(round: Round, source: Source): seq<Line> {
    if round == [] then [] else (if round[0].source == source then round[0].lines else []) + LinesIn(round[1..], source)
  }

  function LinesFrom(rounds: seq<Round>, source: Source): seq<Line> {
    if rounds == [] then [] else LinesFrom(rounds[..|rounds| - 1], source) + LinesIn(rounds[|rounds| - 1], source)
  }

  // ---- One follower ----

  /** What a follower reports of a round. */
  function BatchOf(source: Source, classify: string -> Line, r: RoundRecord): Batch {
    Batch(source, Classified(classify, r.Lines()), r.more, r.pending != [], false, r.activity, r.failed)
  }

  predicate IsQuietBatch(batch: Batch) {
    !batch.more && !batch.pending && !batch.activity
  }

  /** A round is reported as quiet exactly if nothing was read, is queued or was missed. */
  lemma QuietIsCalm(path: string, source: Source, classify: string -> Line, r: RoundRecord)
    requires RoundOk(path, r) && !r.failed
    ensures IsQuietBatch(BatchOf(source, classify, r)) <==> r.Calm()
  {
    hide UpToDate, TotalLength, AtPath;
  }

  function Latest(history: seq<RoundRecord>): RoundRecord
    requires history != []
  {
    history[|history| - 1]
  }

  predicate OneMore<T(==)>(before: seq<T>, after: seq<T>) {
    |after| == |before| + 1 && before <= after
  }

  /** On a disk on which no one else acts, the path is found to name what it names. */
  predicate Lookup(path: string, named: Option<Inode>, opens: seq<Answer>) {
    opens == [] || opens == [Answer(path, named)]
  }

  /** One turn of the follower's loop: a round of reads, and the batch that reports it. */
  method ReportRound(f: LogFollower, source: Source, classify: string -> Line, elapsed: bool) returns (batch: Batch)
    requires f.Recorded()
    modifies f, f.disk
    ensures f.Recorded() && Grown(old(f.disk.files), f.disk.files) && OneMore(old(f.history), f.history)
    ensures batch == BatchOf(source, classify, Latest(f.history)) && Latest(f.history).files == old(f.disk.files)
    ensures f.disk.answers == old(f.disk.answers) + Latest(f.history).opens
    ensures f.disk.still ==>
      unchanged(f.disk`files, f.disk`names) && Lookup(f.path, old(f.disk.Named(f.path)), Latest(f.history).opens)
    ensures batch.failed ==> f.Stuck(Latest(f.history).opens)
    ensures !batch.failed ==> (IsQuietBatch(batch) <==> Latest(f.history).Calm())
  {
    hide InTurn, Books, PastBooks, HistoryOk, AllReads, Overlong, Grown, UpToDate, SameLog;
    var ok, lines := f.ReadAvailable(elapsed);
    batch := Batch(source, Classified(classify, lines), f.more, f.pending != [], false, f.activity, !ok);
    LatestOk(f);
    if ok {
      QuietIsCalm(f.path, source, classify, Latest(f.history));
    }
  }

  lemma LatestOk(f: LogFollower)
    requires f.Recorded() && f.history != []
    ensures RoundOk(f.path, Latest(f.history))
  {
    hide InTurn, Books, PastBooks, Grown, RoundOk, AllReads;
    assert RoundKept(f.disk.files, f.seen, f.path, f.history, |f.history| - 1);
  }

  // ---- Both followers ----

  /** Two followers, or one without mods, of logs in one place, between rounds. */
  ghost predicate Together(server: LogFollower, mods: LogFollower?)
    reads server, server.disk, mods
  {
    server.Recorded() && (mods != null ==> mods != server && mods.disk == server.disk && mods.Recorded())
  }

  function Followers(server: LogFollower, mods: LogFollower?): set<object> {
    if mods == null then {server, server.disk} else {server, server.disk, mods}
  }

  ghost function History(f: LogFollower?): seq<RoundRecord>
    reads f
  {
    if f == null then [] else f.history
  }

  ghost function Log(f: LogFollower?): seq<Read>
    reads f
  {
    if f == null then [] else f.log
  }

  /** What was appended. */
  function Since<T(==)>(before: seq<T>, after: seq<T>): seq<T> {
    if before <= after then after[|before|..] else []
  }

  /** A round is what the followers, one or two, recorded, in either order of arrival. */
  predicate RoundIs(classify: string -> Line, round: Round, server: RoundRecord, mods: Option<RoundRecord>) {
    var a := BatchOf(Server, classify, server);
    match mods
    case None => round == [a]
    case Some(r) => var b := BatchOf(BepInEx, classify, r); round == [a, b] || round == [b, a]
  }

  lemma OneBatch(a: Batch)
    ensures Fails([a]) <==> a.failed
    ensures Quiet([a]) <==> IsQuietBatch(a)
    ensures LinesIn([a], a.source) == a.lines
  {
    assert [a][0] == a;
  }

  lemma TwoBatches(a: Batch, b: Batch)
    ensures Fails([a, b]) <==> a.failed || b.failed
    ensures Quiet([a, b]) <==> IsQuietBatch(a) && IsQuietBatch(b)
    ensures a.source != b.source ==> LinesIn([a, b], a.source) == a.lines && LinesIn([a, b], b.source) == b.lines
  {
    assert [a, b][1..] == [b] && [b][1..] == [];
    if a.source != b.source {
      assert LinesIn([b], a.source) == [] && LinesIn([b], b.source) == b.lines + [] == b.lines;
      assert LinesIn([a, b], a.source) == a.lines + LinesIn([b], a.source) == a.lines;
      assert LinesIn([a, b], b.source) == [] + LinesIn([b], b.source);
    }
    assert [a, b][0] == a && [a, b][1] == b;
  }

  /** What a round says, in terms of the records of the followers. */
  lemma RoundSays(classify: string -> Line, round: Round, server: RoundRecord, mods: Option<RoundRecord>, path: string,
                  modsPath: string)
    requires RoundIs(classify, round, server, mods)
    requires RoundOk(path, server) && (mods.Some? ==> RoundOk(modsPath, mods.value))
    ensures Fails(round) <==> server.failed || (mods.Some? && mods.value.failed)
    ensures !Fails(round) ==> (Quiet(round) <==> server.Calm() && (mods.Some? ==> mods.value.Calm()))
    ensures LinesIn(round, Server) == Classified(classify, server.Lines())
    ensures mods.Some? ==> LinesIn(round, BepInEx) == Classified(classify, mods.value.Lines())
  {
    hide Fails, Quiet, LinesIn, Classified, RoundOk, IsQuietBatch, RoundRecord.Calm;
    var a := BatchOf(Server, classify, server);
    if !server.failed {
      QuietIsCalm(path, Server, classify, server);
    }
    if mods.None? {
      OneBatch(a);
    } else {
      var b := BatchOf(BepInEx, classify, mods.value);
      if !mods.value.failed {
        QuietIsCalm(modsPath, BepInEx, classify, mods.value);
      }
      TwoBatches(a, b);
      TwoBatches(b, a);
    }
  }

  /** Some follower failed in its last round, and why. */
  ghost predicate SomeStuck(server: LogFollower, mods: LogFollower?)
    reads server, server.disk, mods, if mods == null then {} else {mods.disk}
  {
    || (server.history != [] && Latest(server.history).failed && server.Stuck(Latest(server.history).opens))
    || (mods != null && mods.history != [] && Latest(mods.history).failed && mods.Stuck(Latest(mods.history).opens))
  }

  lemma MonitoredSays(server: LogFollower, mods: LogFollower?, classify: string -> Line, round: Round)
    requires Together(server, mods) && server.history != [] && (mods != null ==> mods.history != [])
    requires RoundIs(classify, round, Latest(server.history), if mods == null then None else Some(Latest(mods.history)))
    ensures Fails(round) <==> Latest(server.history).failed || (mods != null && Latest(mods.history).failed)
    ensures !Fails(round) ==>
      (Quiet(round) <==> Latest(server.history).Calm() && (mods != null ==> Latest(mods.history).Calm()))
  {
    hide InTurn, Books, PastBooks, HistoryOk, AllReads, AllRetired, RoundOk, Fails, Quiet, LinesIn, RoundIs,
      RoundRecord.Calm;
    LatestOk(server);
    if mods != null {
      LatestOk(mods);
    }
    RoundSays(classify, round, Latest(server.history), if mods == null then None else Some(Latest(mods.history)),
      server.path, if mods == null then "" else mods.path);
  }

  /** A round of observeReadinessRound: every follower reports once, and the batches arrive in any order. */
  method MonitorRound(server: LogFollower, mods: LogFollower?, classify: string -> Line, serverElapsed: bool,
                      modsElapsed: bool) returns (round: Round)
    requires Together(server, mods)
    modifies Followers(server, mods)
    ensures Together(server, mods) && Grown(old(server.disk.files), server.disk.files)
    ensures OneMore(old(server.history), server.history)
    ensures mods != null ==> OneMore(old(mods.history), mods.history)
    ensures RoundIs(classify, round, Latest(server.history), if mods == null then None else Some(Latest(mods.history)))
    ensures Grown(old(server.disk.files), Latest(server.history).files)
    ensures mods != null ==> Grown(old(server.disk.files), Latest(mods.history).files)
    ensures server.disk.answers == old(server.disk.answers) + Latest(server.history).opens +
      if mods == null then [] else Latest(mods.history).opens
    ensures server.disk.still ==>
      && Lookup(server.path, old(server.disk.Named(server.path)), Latest(server.history).opens)
      && (mods != null ==> Lookup(mods.path, old(server.disk.Named(mods.path)), Latest(mods.history).opens))
    ensures if Fails(round) then SomeStuck(server, mods)
      else Quiet(round) <==> Latest(server.history).Calm() && (mods != null ==> Latest(mods.history).Calm())
  {
    hide InTurn, Books, PastBooks, HistoryOk, AllReads, AllRetired, Overlong, Grown, UpToDate, LogFollower.StuckOn,
      Classified, Fails, Quiet, RoundRecord.Calm;
    ghost var files := server.disk.files;
    NothingGrown(files);
    var a := ReportRound(server, Server, classify, serverElapsed);
    if mods == null {
      round := [a];
      MonitoredSays(server, mods, classify, round);
      return;
    }
    ghost var files1 := server.disk.files;
    mods.StillRecorded(files);
    var b := ReportRound(mods, BepInEx, classify, modsElapsed);
    GrownTransitive(files, files1, server.disk.files);
    server.StillRecorded(files1);
    if a.failed {
      server.StillStuck(files1, Latest(server.history).opens);
    }
    var inOrder: bool := *;
    round := if inOrder then [a, b] else [b, a];
    MonitoredSays(server, mods, classify, round);
  }

  // ---- The watch ----

  /** The rounds of a watch are what the followers recorded, round by round. */
  predicate RoundsAre(classify: string -> Line, rounds: seq<Round>, server: seq<RoundRecord>, requireMods: bool,
                      mods: seq<RoundRecord>) {
    && |server| == |rounds| && (requireMods ==> |mods| == |rounds|)
    && forall r :: 0 <= r < |rounds| ==>
         RoundIs(classify, rounds[r], server[r], if requireMods then Some(mods[r]) else None)
  }

  predicate NoneFails(rounds: seq<Round>) {
    forall r :: 0 <= r < |rounds| ==> !Fails(rounds[r])
  }

  /** Round `r` of these and the one before it were calm. */
  predicate CalmRounds(history: seq<RoundRecord>, r: int) {
    0 < r < |history| && history[r - 1].Calm() && history[r].Calm()
  }

  /** The rounds began on logs that had grown from these. */
  ghost predicate BegunSince(files: map<Inode, string>, history: seq<RoundRecord>) {
    forall r :: 0 <= r < |history| ==> Grown(files, history[r].files)
  }

  predicate AllOk(path: string, history: seq<RoundRecord>) {
    forall r :: 0 <= r < |history| ==> RoundOk(path, history[r])
  }

  /** What the path lookups of the rounds found, in their order. */
  function AnswersOf(server: seq<RoundRecord>, mods: seq<RoundRecord>): seq<Answer> {
    if server == [] then []
    else
      var n := |server| - 1;
      if |mods| == |server| then AnswersOf(server[..n], mods[..n]) + (server[n].opens + mods[n].opens)
      else AnswersOf(server[..n], mods) + server[n].opens
  }

  lemma MoreAnswers(server: seq<RoundRecord>, a: RoundRecord, mods: seq<RoundRecord>, b: Option<RoundRecord>)
    requires if b.Some? then |mods| == |server| else mods == []
    ensures AnswersOf(server + [a], if b.Some? then mods + [b.value] else mods) ==
      AnswersOf(server, mods) + (a.opens + if b.Some? then b.value.opens else [])
  {
    assert (server + [a])[..|server|] == server;
    if b.Some? {
      assert (mods + [b.value])[..|mods|] == mods;
    } else {
      assert a.opens + [] == a.opens;
    }
  }

  /** One more round, recorded by every follower. */
  lemma MoreRounds(classify: string -> Line, rounds: seq<Round>, round: Round, server: seq<RoundRecord>, a: RoundRecord,
                   requireMods: bool, mods: seq<RoundRecord>, b: Option<RoundRecord>)
    requires RoundsAre(classify, rounds, server, requireMods, mods) && b.Some? == requireMods
    requires RoundIs(classify, round, a, b)
    ensures RoundsAre(classify, rounds + [round], server + [a], requireMods, if b.Some? then mods + [b.value] else mods)
  {
    hide RoundIs;
  }

  /**
   * The watch on its followers, round by round until it ends. The rounds it decides on are exactly
   * those its followers went through. onReady fires only after two rounds in a row in which no
   * follower read a byte, none has a log queued, every log followed had been read to its end and was
   * the one at the path; a follower fails only because a log has to wait that finds no place or a line
   * is too long.
   */
  method WatchFollowers(server: LogFollower, mods: LogFollower?, classify: string -> Line, elapsed: seq<(bool, bool)>,
                        continues: bool)
      returns (announced: int, ending: Ending, ghost rounds: seq<Round>)
    requires Together(server, mods)
    modifies Followers(server, mods)
    ensures Together(server, mods) && Grown(old(server.disk.files), server.disk.files)
    ensures old(server.history) <= server.history && old(History(mods)) <= History(mods)
    ensures RoundsAre(classify, rounds, Since(old(server.history), server.history), mods != null,
                      Since(old(History(mods)), History(mods)))
    ensures Watched(rounds, mods != null, continues, announced, ending)
    ensures |rounds| == match ending case Watching => |elapsed| case FailedAt(f) => f + 1 case Returned => announced + 1
    ensures BegunSince(old(server.disk.files), Since(old(server.history), server.history))
    ensures server.disk.answers == old(server.disk.answers) +
      AnswersOf(Since(old(server.history), server.history), Since(old(History(mods)), History(mods)))
    ensures announced >= 0 ==> CalmRounds(Since(old(server.history), server.history), announced)
    ensures announced >= 0 && mods != null ==> CalmRounds(Since(old(History(mods)), History(mods)), announced)
    ensures ending.FailedAt? && Fails(rounds[ending.round]) ==> SomeStuck(server, mods)
    ensures old(server.log) <= server.log && old(Log(mods)) <= Log(mods)
    ensures NoneFails(rounds) ==>
      && LinesFrom(rounds, Server) == Classified(classify, AllLines(Since(old(server.log), server.log)))
      && (mods != null ==>
            LinesFrom(rounds, BepInEx) == Classified(classify, AllLines(Since(old(Log(mods)), Log(mods)))))
  {
    hide Together, AllReads, Grown, Follows, Watched, RoundsAre, Classified, LinesFrom, AllLines, Fails, HasFatal,
      CalmRounds, Kept, SomeStuck, BegunSince, Since, NoneFails, AnswersOf;
    ghost var files, first, firstMods := server.disk.files, server.history, History(mods);
    ghost var answers := server.disk.answers;
    LogsAre(server, mods);
    NothingKept(server, mods, classify);
    WatchStarts(mods != null, continues);
    var p := STARTED;
    var i := 0;
    rounds, ending := [], Watching;
    while i < |elapsed| && ending.Watching?
      invariant 0 <= i <= |elapsed| && |rounds| == i
      invariant Kept(server, mods, classify, files, first, firstMods, answers, rounds)
      invariant if ending.Watching? then Follows(rounds, mods != null, continues, p)
        else i > 0 && Watched(rounds, mods != null, continues, p.announced, ending)
      invariant match ending case Watching => true case FailedAt(f) => i == f + 1 case Returned => i == p.announced + 1
      invariant i > 0 && Fails(rounds[i - 1]) ==> SomeStuck(server, mods)
      decreases |elapsed| - i
    {
      var round := KeptRound(server, mods, classify, elapsed[i].0, elapsed[i].1, files, first, firstMods, answers,
        rounds);
      p, ending := NextRound(rounds, round, p, mods != null, continues);
      assert (rounds + [round])[i] == round;
      rounds := rounds + [round];
      i := i + 1;
    }
    announced := p.announced;
    if ending.Watching? {
      FollowsIsWatched(rounds, mods != null, continues, p);
    }
    WatchEnds(server, mods, classify, files, rounds, first, firstMods, answers, continues, announced, ending);
  }

  /** The rounds since the watch began are those recorded since, on logs that grew. */
  ghost predicate Kept(server: LogFollower, mods: LogFollower?, classify: string -> Line, files: map<Inode, string>,
                       first: seq<RoundRecord>, firstMods: seq<RoundRecord>, answers: seq<Answer>,
                       rounds: seq<Round>)
    reads server, server.disk, mods
  {
    && Together(server, mods) && Grown(files, server.disk.files)
    && first <= server.history && firstMods <= History(mods)
    && RoundsAre(classify, rounds, Since(first, server.history), mods != null, Since(firstMods, History(mods)))
    && BegunSince(files, Since(first, server.history))
    && server.disk.answers == answers + AnswersOf(Since(first, server.history), Since(firstMods, History(mods)))
  }

  lemma NothingKept(server: LogFollower, mods: LogFollower?, classify: string -> Line)
    requires Together(server, mods)
    ensures Kept(server, mods, classify, server.disk.files, server.history, History(mods), server.disk.answers, [])
  {
    hide Together, Grown;
    NothingGrown(server.disk.files);
  }

  /** One more round of the followers. */
  method KeptRound(server: LogFollower, mods: LogFollower?, classify: string -> Line, serverElapsed: bool,
                   modsElapsed: bool, ghost files: map<Inode, string>, ghost first: seq<RoundRecord>,
                   ghost firstMods: seq<RoundRecord>, ghost answers: seq<Answer>, ghost rounds: seq<Round>)
      returns (round: Round)
    requires Kept(server, mods, classify, files, first, firstMods, answers, rounds)
    modifies Followers(server, mods)
    ensures Kept(server, mods, classify, files, first, firstMods, answers, rounds + [round])
    ensures Fails(round) ==> SomeStuck(server, mods)
  {
    hide Together, Grown, RoundsAre, RoundIs, LogFollower.Stuck, Fails, Since, BegunSince, AnswersOf;
    ghost var files1, before, modsBefore := server.disk.files, server.history, History(mods);
    ghost var answered := server.disk.answers;
    round := MonitorRound(server, mods, classify, serverElapsed, modsElapsed);
    GrownTransitive(files, files1, server.disk.files);
    GrownTransitive(files, files1, Latest(server.history).files);
    MoreSince(first, before, server.history);
    MoreBegun(files, Since(first, before), Latest(server.history));
    if mods != null {
      MoreSince(firstMods, modsBefore, mods.history);
    }
    ghost var a, b := Latest(server.history), if mods == null then None else Some(Latest(mods.history));
    ghost var m := Since(firstMods, modsBefore);
    NoneSince(mods, firstMods, modsBefore, History(mods));
    SameLengths(classify, rounds, Since(first, before), mods != null, m);
    MoreRounds(classify, rounds, round, Since(first, before), a, mods != null, m, b);
    MoreAnswers(Since(first, before), a, m, b);
    Associative(answers, AnswersOf(Since(first, before), m), a.opens + if b.Some? then b.value.opens else []);
    Associative(answered, a.opens, if b.Some? then b.value.opens else []);
  }

  lemma NoneSince(mods: LogFollower?, first: seq<RoundRecord>, before: seq<RoundRecord>, after: seq<RoundRecord>)
    ensures mods == null && before == [] && after == [] && first <= before ==>
      Since(first, before) == [] && Since(first, after) == []
  {
  }

  lemma SameLengths(classify: string -> Line, rounds: seq<Round>, server: seq<RoundRecord>, requireMods: bool,
                    mods: seq<RoundRecord>)
    requires RoundsAre(classify, rounds, server, requireMods, mods)
    ensures |server| == |rounds| && (requireMods ==> |mods| == |rounds|)
  {
    hide RoundIs;
  }

  lemma MoreSince(first: seq<RoundRecord>, before: seq<RoundRecord>, after: seq<RoundRecord>)
    requires first <= before && OneMore(before, after)
    ensures first <= after && Since(first, after) == Since(first, before) + [Latest(after)]
  {
  }

  lemma MoreBegun(files: map<Inode, string>, history: seq<RoundRecord>, r: RoundRecord)
    requires BegunSince(files, history) && Grown(files, r.files)
    ensures BegunSince(files, history + [r])
  {
    hide Grown;
  }

  /** What has become true when the watch ends. */
  lemma WatchEnds(server: LogFollower, mods: LogFollower?, classify: string -> Line, files: map<Inode, string>,
                  rounds: seq<Round>, first: seq<RoundRecord>, firstMods: seq<RoundRecord>, answers: seq<Answer>,
                  continues: bool, announced: int, ending: Ending)
    requires Kept(server, mods, classify, files, first, firstMods, answers, rounds)
    requires Watched(rounds, mods != null, continues, announced, ending)
    ensures Together(server, mods) && Grown(files, server.disk.files)
    ensures first <= server.history && firstMods <= History(mods)
    ensures RoundsAre(classify, rounds, Since(first, server.history), mods != null, Since(firstMods, History(mods)))
    ensures BegunSince(files, Since(first, server.history))
    ensures server.disk.answers == answers + AnswersOf(Since(first, server.history), Since(firstMods, History(mods)))
    ensures announced >= 0 ==> CalmRounds(Since(first, server.history), announced)
    ensures announced >= 0 && mods != null ==> CalmRounds(Since(firstMods, History(mods)), announced)
    ensures AllReads(first) <= server.log && (mods != null ==> AllReads(firstMods) <= Log(mods))
    ensures NoneFails(rounds) ==>
      && LinesFrom(rounds, Server) == Classified(classify, AllLines(Since(AllReads(first), server.log)))
      && (mods != null ==>
            LinesFrom(rounds, BepInEx) == Classified(classify, AllLines(Since(AllReads(firstMods), Log(mods)))))
  {
    hide InTurn, Books, PastBooks, HistoryOk, AllReads, RoundsAre, Watched, Fails, AllOk, CalmRounds, LinesFrom,
      Classified, AllLines, Grown, BegunSince, AnswersOf;
    AllRoundsOk(server, first);
    ReadSince(server, first);
    if mods != null {
      AllRoundsOk(mods, firstMods);
      ReadSince(mods, firstMods);
    }
    var a, b := Since(first, server.history), Since(firstMods, History(mods));
    ReadyIsCalm(classify, rounds, a, mods != null, b, server.path, if mods == null then "" else mods.path, continues,
      announced, ending);
    if NoneFails(rounds) {
      LinesOfRounds(classify, rounds, a, mods != null, b, server.path, if mods == null then "" else mods.path);
    }
  }

  /**
   * What readiness rests on: every marker that stands was on a line that is, complete, in a log that
   * was followed.
   */
  lemma EvidenceIsThere(server: LogFollower, mods: LogFollower?, classify: string -> Line, rounds: seq<Round>,
                        first: seq<RoundRecord>, firstMods: seq<RoundRecord>, r: nat, marker: Marker)
      returns (f: LogFollower, c: Cursor, text: string)
    requires Together(server, mods) && first <= server.history && firstMods <= History(mods)
    requires RoundsAre(classify, rounds, Since(first, server.history), mods != null, Since(firstMods, History(mods)))
    requires r < |rounds| && Standing(rounds, r, marker)
    ensures f == server || f == mods
    ensures marker in classify(text).marks && FollowedBy(f, c) && HoldsLine(f.disk.files, c, text)
  {
    hide InTurn, Books, PastBooks, HistoryOk, AllReads, AllRetired, AllLines, HoldsLine, FollowedBy, Since, Together;
    LogsAre(server, mods);
    var k :| 0 <= k <= r && Shows(rounds[k], marker);
    var a, b := Since(first, server.history), Since(firstMods, History(mods));
    var source;
    source, text := ShownBy(classify, rounds[k], a[k], if mods != null then Some(b[k]) else None, marker);
    if source.Server? {
      f := server;
      LineInLog(server, first, k, text);
    } else {
      f := mods;
      LineInLog(mods, firstMods, k, text);
    }
    TogetherValid(server, mods);
    c := LinesAreThere(f, text);
  }

  lemma TogetherValid(server: LogFollower, mods: LogFollower?)
    requires Together(server, mods)
    ensures server.Recorded() && server.Valid() && (mods != null ==> mods.Recorded() && mods.Valid())
  {
    hide InTurn, Books, PastBooks, HistoryOk, AllReads, AllRetired;
  }

  /** A marker of a round is on a line that some follower handed out. */
  lemma ShownBy(classify: string -> Line, round: Round, server: RoundRecord, mods: Option<RoundRecord>, marker: Marker)
      returns (source: Source, text: string)
    requires RoundIs(classify, round, server, mods) && Shows(round, marker)
    ensures marker in classify(text).marks
    ensures if source.Server? then text in server.Lines() else mods.Some? && text in mods.value.Lines()
  {
    hide RoundRecord.Lines, Classified;
    var i, k :| 0 <= i < |round| && 0 <= k < |round[i].lines| && marker in round[i].lines[k].marks;
    source := round[i].source;
    text := if source.Server? then server.Lines()[k] else mods.value.Lines()[k];
  }

  lemma LineInLog(f: LogFollower, first: seq<RoundRecord>, k: nat, text: string)
    requires f.log == AllReads(f.history) && first <= f.history
    requires k < |Since(first, f.history)| && text in Since(first, f.history)[k].Lines()
    ensures text in AllLines(f.log)
  {
    hide AllLines, AllReads;
    LineOfRound(f.history, |first| + k, text);
  }

  lemma {:induction false} LineOfRound(history: seq<RoundRecord>, r: nat, text: string)
    requires r < |history| && text in history[r].Lines()
    ensures text in AllLines(AllReads(history))
    decreases |history|
  {
    var front := history[..|history| - 1];
    LogConcatenation(AllReads(front), Latest(history).taken);
    hide AllLines;
    if r < |front| {
      LineOfRound(front, r, text);
    }
  }

  lemma LogsAre(server: LogFollower, mods: LogFollower?)
    requires Together(server, mods)
    ensures server.log == AllReads(server.history) && (mods != null ==> mods.log == AllReads(mods.history))
    ensures mods != null ==> mods != server && mods.disk == server.disk
  {
    hide InTurn, Books, PastBooks, HistoryOk, AllReads;
  }

  lemma AllRoundsOk(f: LogFollower, first: seq<RoundRecord>)
    requires f.Recorded() && first <= f.history
    ensures AllOk(f.path, Since(first, f.history))
  {
    hide InTurn, Books, PastBooks, Grown, RoundOk, AllReads;
    forall r | 0 <= r < |f.history| - |first|
      ensures RoundOk(f.path, Since(first, f.history)[r])
    {
      assert RoundKept(f.disk.files, f.seen, f.path, f.history, |first| + r);
    }
  }

  /** The reads since `first` are those of the rounds since. */
  lemma ReadSince(f: LogFollower, first: seq<RoundRecord>)
    requires f.Recorded() && first <= f.history
    ensures AllReads(first) <= f.log && Since(AllReads(first), f.log) == AllReads(Since(first, f.history))
  {
    hide InTurn, Books, PastBooks, HistoryOk;
    assert f.history == first + f.history[|first|..];
    ReadsConcatenation(first, f.history[|first|..]);
    hide AllReads;
  }

  /** When readiness is announced, every follower was calm for two rounds. */
  lemma ReadyIsCalm(classify: string -> Line, rounds: seq<Round>, server: seq<RoundRecord>, requireMods: bool,
                    mods: seq<RoundRecord>, path: string, modsPath: string, continues: bool, announced: int,
                    ending: Ending)
    requires RoundsAre(classify, rounds, server, requireMods, mods)
    requires AllOk(path, server) && (requireMods ==> AllOk(modsPath, mods))
    requires Watched(rounds, requireMods, continues, announced, ending)
    ensures announced >= 0 ==> CalmRounds(server, announced) && (requireMods ==> CalmRounds(mods, announced))
  {
    hide Fails, Quiet, Complete, HasFatal, RoundIs, RoundOk, RoundRecord.Calm, LinesIn, Classified;
    if announced >= 0 {
      assert ReadyAt(rounds, announced, requireMods);
      forall r | announced - 1 <= r <= announced
        ensures server[r].Calm() && (requireMods ==> mods[r].Calm())
      {
        assert !Broken(rounds, r);
        RoundSays(classify, rounds[r], server[r], if requireMods then Some(mods[r]) else None, path, modsPath);
      }
    }
  }

  /** If no round failed, the lines of all rounds are those of everything read. */
  lemma {:induction false} LinesOfRounds(classify: string -> Line, rounds: seq<Round>, server: seq<RoundRecord>,
                                         requireMods: bool, mods: seq<RoundRecord>, path: string, modsPath: string)
    requires RoundsAre(classify, rounds, server, requireMods, mods)
    requires AllOk(path, server) && (requireMods ==> AllOk(modsPath, mods))
    requires NoneFails(rounds)
    ensures LinesFrom(rounds, Server) == Classified(classify, AllLines(AllReads(server)))
    ensures requireMods ==> LinesFrom(rounds, BepInEx) == Classified(classify, AllLines(AllReads(mods)))
    decreases |rounds|
  {
    hide Fails, Quiet, RoundIs, RoundOk, RoundRecord.Calm, LinesIn, Classified;
    if rounds != [] {
      var n := |rounds| - 1;
      var b := if requireMods then mods[..n] else mods;
      assert RoundsAre(classify, rounds[..n], server[..n], requireMods, b);
      LinesOfRounds(classify, rounds[..n], server[..n], requireMods, b, path, modsPath);
      RoundSays(classify, rounds[n], server[n], if requireMods then Some(mods[n]) else None, path, modsPath);
      LastLines(classify, server);
      if requireMods {
        LastLines(classify, mods);
      }
    } else {
      NoLines(classify);
    }
  }

  lemma NoLines(classify: string -> Line)
    ensures Classified(classify, AllLines(AllReads([]))) == []
  {
  }

  lemma LastLines(classify: string -> Line, history: seq<RoundRecord>)
    requires history != []
    ensures Classified(classify, AllLines(AllReads(history))) ==
      Classified(classify, AllLines(AllReads(history[..|history| - 1]))) +
        Classified(classify, AllLines(Latest(history).taken))
  {
    var front := AllReads(history[..|history| - 1]);
    hide Classified, AllLines;
    LogConcatenation(front, Latest(history).taken);
    ClassifiedSum(classify, AllLines(front), AllLines(Latest(history).taken));
  }
}
