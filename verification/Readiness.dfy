/**
 * ReadinessMonitor.watch: evidence gathered round by round, and the decision that fires onReady.
 * What a line proves, and whether it is fatal, is decided by signatures outside this model.
 */
module Readiness {
  datatype Source = Server | BepInEx

  datatype Marker = ServerStartup | Chainloader | FrameworkLoaded | KindredLoaded | SatisvamporyReady

  datatype Line = Line(marks: set<Marker>, fatal: bool)

  /** What one follower reports for a round. */
  datatype Batch = Batch(source: Source, lines: seq<Line>, more: bool, pending: bool, reset: bool, activity: bool,
    failed: bool)

  /** The batches of a round, in the order they arrived. */
  type Round = seq<Batch>

  // ---- What a round says ----

  predicate Resets(round: Round, source: Source) {
    exists i :: 0 <= i < |round| && round[i].reset && round[i].source == source
  }

  predicate Shows(round: Round, marker: Marker) {
    exists i, k :: 0 <= i < |round| && 0 <= k < |round[i].lines| && marker in round[i].lines[k].marks
  }

  predicate Fails(round: Round) {
    exists i :: 0 <= i < |round| && round[i].failed
  }

  predicate HasFatal(round: Round) {
    exists i, k :: 0 <= i < |round| && 0 <= k < |round[i].lines| && round[i].lines[k].fatal
  }

  /** Nothing was read and nothing waits, on any follower. */
  predicate Quiet(round: Round) {
    forall i :: 0 <= i < |round| ==> !round[i].more && !round[i].pending && !round[i].activity
  }

  // ---- What a history says ----

  /** The marker was seen in some round up to `r`, and `log` was not replaced in a later one. */
  ghost predicate SeenSince(rounds: seq<Round>, r: int, marker: Marker, log: Source)
    requires -1 <= r < |rounds|
  {
    exists k :: 0 <= k <= r && Shows(rounds[k], marker) && forall j :: k < j <= r ==> !Resets(rounds[j], log)
  }

  /** What the server log proves falls with the server log, and everything else with that of BepInEx. */
  ghost predicate Standing(rounds: seq<Round>, r: int, marker: Marker)
    requires -1 <= r < |rounds|
  {
    match marker
    case ServerStartup => SeenSince(rounds, r, marker, Server)
    case Chainloader => SeenSince(rounds, r, marker, BepInEx)
    case FrameworkLoaded => SeenSince(rounds, r, marker, BepInEx)
    case KindredLoaded => SeenSince(rounds, r, marker, BepInEx)
    case SatisvamporyReady => SeenSince(rounds, r, marker, BepInEx)
  }

  /** Readiness needs the startup of the server, and with mods that each of them has loaded. */
  ghost predicate Complete(rounds: seq<Round>, r: int, requireMods: bool)
    requires -1 <= r < |rounds|
  {
    && Standing(rounds, r, ServerStartup)
    && (requireMods ==>
          && Standing(rounds, r, Chainloader) && Standing(rounds, r, FrameworkLoaded)
          && Standing(rounds, r, KindredLoaded) && Standing(rounds, r, SatisvamporyReady))
  }

  /** Round `r` is quiet and all evidence stands. */
  ghost predicate Settled(rounds: seq<Round>, r: nat, requireMods: bool)
    requires r < |rounds|
  {
    Quiet(rounds[r]) && Complete(rounds, r, requireMods)
  }

  /** Two settled rounds in a row, the second one `r`. */
  ghost predicate ReadyAt(rounds: seq<Round>, r: nat, requireMods: bool)
    requires r < |rounds|
  {
    r > 0 && Settled(rounds, r - 1, requireMods) && Settled(rounds, r, requireMods)
  }

  ghost predicate Broken(rounds: seq<Round>, r: nat)
    requires r < |rounds|
  {
    Fails(rounds[r]) || HasFatal(rounds[r])
  }

  // ---- The evidence ----

  lemma SeenNext(rounds: seq<Round>, r: nat, marker: Marker, log: Source)
    requires r < |rounds|
    ensures SeenSince(rounds, r, marker, log) <==>
      Shows(rounds[r], marker) || (!Resets(rounds[r], log) && SeenSince(rounds, r - 1, marker, log))
  {
    hide Shows, Resets;
  }

  /** All that readiness needs is in evidence. */
  ghost predicate Enough(evidence: set<Marker>, requireMods: bool) {
    && ServerStartup in evidence
    && (requireMods ==>
          && Chainloader in evidence && FrameworkLoaded in evidence
          && KindredLoaded in evidence && SatisvamporyReady in evidence)
  }

  /** What a round leaves of the evidence. */
  ghost predicate Observed(round: Round, evidence: set<Marker>, next: set<Marker>) {
    && (ServerStartup in next <==> Shows(round, ServerStartup) || (ServerStartup in evidence && !Resets(round, Server)))
    && forall marker: Marker :: !marker.ServerStartup? ==>
         (marker in next <==> Shows(round, marker) || (marker in evidence && !Resets(round, BepInEx)))
  }

  /** readinessEvidence.reset. */
  function Cleared(evidence: set<Marker>, source: Source): set<Marker> {
    if source.Server? then evidence - {ServerStartup}
    else evidence - {Chainloader, FrameworkLoaded, KindredLoaded, SatisvamporyReady}
  }

  /** readinessEvidence: the markers that stand. */
  method Observe(round: Round, evidence: set<Marker>) returns (next: set<Marker>)
    ensures Observed(round, evidence, next)
  {
    next := evidence;
    for i := 0 to |round|
      invariant ServerStartup in next <==>
        ServerStartup in evidence && !exists k :: 0 <= k < i && round[k].reset && round[k].source == Server
      invariant forall marker: Marker :: !marker.ServerStartup? ==>
        (marker in next <==>
          marker in evidence && !exists k :: 0 <= k < i && round[k].reset && round[k].source == BepInEx)
    {
      if round[i].reset {
        next := Cleared(next, round[i].source);
      }
    }
    ghost var kept := next;
    for i := 0 to |round|
      invariant forall marker :: marker in next <==> marker in kept || Shows(round[..i], marker)
    {
      var shown := Collect(round[i].lines);
      ShowsMore(round, i);
      next := next + shown;
    }
    assert round[..|round|] == round;
  }

  method Collect(lines: seq<Line>) returns (shown: set<Marker>)
    ensures forall marker :: marker in shown <==> exists k :: 0 <= k < |lines| && marker in lines[k].marks
  {
    shown := {};
    for k := 0 to |lines|
      invariant forall marker :: marker in shown <==> exists l :: 0 <= l < k && marker in lines[l].marks
    {
      shown := shown + lines[k].marks;
    }
  }

  lemma ShowsMore(round: Round, i: nat)
    requires i < |round|
    ensures forall marker :: Shows(round[..i + 1], marker) <==>
      Shows(round[..i], marker) || exists k :: 0 <= k < |round[i].lines| && marker in round[i].lines[k].marks
  {
    var more := round[..i + 1];
    assert more[i] == round[i] && forall k :: 0 <= k < i ==> more[k] == round[..i][k];
    forall marker
      ensures Shows(more, marker) <==>
        Shows(round[..i], marker) || exists k :: 0 <= k < |round[i].lines| && marker in round[i].lines[k].marks
    {
      if Shows(round[..i], marker) {
        var a, b :| 0 <= a < i && 0 <= b < |round[..i][a].lines| && marker in round[..i][a].lines[b].marks;
        assert marker in more[a].lines[b].marks;
      }
      if k :| 0 <= k < |round[i].lines| && marker in round[i].lines[k].marks {
        assert marker in more[i].lines[k].marks;
      }
    }
  }

  /** The fatal lines and the failed batches of a round. */
  method Inspect(round: Round, checkStartup: bool) returns (ok: bool)
    ensures ok <==> !Fails(round) && !(checkStartup && HasFatal(round))
  {
    for i := 0 to |round|
      invariant forall k :: 0 <= k < i ==> !round[k].failed
    {
      if round[i].failed {
        return false;
      }
    }
    for i := 0 to |round|
      invariant checkStartup ==> forall a, b :: 0 <= a < i && 0 <= b < |round[a].lines| ==> !round[a].lines[b].fatal
    {
      for k := 0 to |round[i].lines|
        invariant checkStartup ==> forall b :: 0 <= b < k ==> !round[i].lines[b].fatal
      {
        if checkStartup && round[i].lines[k].fatal {
          return false;
        }
      }
    }
    return true;
  }

  method IsQuiet(round: Round) returns (quiet: bool)
    ensures quiet <==> Quiet(round)
  {
    for i := 0 to |round|
      invariant forall k :: 0 <= k < i ==> !round[k].more && !round[k].pending && !round[k].activity
    {
      if round[i].more || round[i].pending || round[i].activity {
        return false;
      }
    }
    return true;
  }

  /** readinessEvidence.complete. */
  method IsComplete(evidence: set<Marker>, requireMods: bool) returns (complete: bool)
    ensures complete <==> Enough(evidence, requireMods)
  {
    if ServerStartup !in evidence {
      return false;
    }
    if !requireMods {
      return true;
    }
    return Chainloader in evidence && FrameworkLoaded in evidence && KindredLoaded in evidence &&
      SatisvamporyReady in evidence;
  }

  /** observeReadinessRound. */
  method ObserveRound(round: Round, evidence: set<Marker>, requireMods: bool, checkStartup: bool)
      returns (ok: bool, next: set<Marker>, ready: bool, quiet: bool)
    ensures ok <==> !Fails(round) && !(checkStartup && HasFatal(round))
    ensures ok ==> Observed(round, evidence, next) && (quiet <==> Quiet(round))
    ensures ok ==> (ready <==> Enough(next, requireMods))
  {
    hide *;
    next, ready, quiet := evidence, false, false;
    ok := Inspect(round, checkStartup);
    if !ok {
      return;
    }
    next := Observe(round, evidence);
    quiet := IsQuiet(round);
    ready := IsComplete(next, requireMods);
  }

  /** How the watch ended: still running after the rounds given, failed in a round, or returned because it was ready. */
  datatype Ending = Watching | FailedAt(round: nat) | Returned

  /**
   * What a watch over these rounds must come to: the round in which onReady fired, or -1, and how it
   * ended.
   */
  ghost predicate Watched(rounds: seq<Round>, requireMods: bool, continues: bool, announced: int, ending: Ending) {
    && -1 <= announced < |rounds|
    && (announced >= 0 ==>
          && ReadyAt(rounds, announced, requireMods)
          && (forall r :: 0 <= r <= announced ==> !Broken(rounds, r))
          && (forall r :: 0 <= r < announced ==> !ReadyAt(rounds, r, requireMods)))
    && match ending
       case Watching =>
         if announced >= 0 then continues && forall r :: announced < r < |rounds| ==> !Fails(rounds[r])
         else forall r :: 0 <= r < |rounds| ==> !Broken(rounds, r) && !ReadyAt(rounds, r, requireMods)
       case Returned => announced >= 0 && !continues
       case FailedAt(f) =>
         && f < |rounds|
         && if announced >= 0 then announced < f && continues && Fails(rounds[f])
            else Broken(rounds, f) && forall r :: 0 <= r < f ==> !Broken(rounds, r) && !ReadyAt(rounds, r, requireMods)
  }

  /** A quiet round on which the evidence of the server stands, and with mods that of each mod. */
  ghost predicate QuietAndSeen(rounds: seq<Round>, r: nat, requireMods: bool)
    requires r < |rounds|
  {
    && Quiet(rounds[r]) && SeenSince(rounds, r, ServerStartup, Server)
    && (requireMods ==> forall marker: Marker :: !marker.ServerStartup? ==> SeenSince(rounds, r, marker, BepInEx))
  }

  /**
   * onReady fires only on two such rounds in a row, and such rounds make it fire if it has not yet and
   * nothing broke before.
   */
  lemma ReadyExactly(rounds: seq<Round>, requireMods: bool, continues: bool, announced: int, ending: Ending, r: nat)
    requires Watched(rounds, requireMods, continues, announced, ending) && 0 < r < |rounds|
    ensures announced == r ==> QuietAndSeen(rounds, r - 1, requireMods) && QuietAndSeen(rounds, r, requireMods)
    ensures
      && QuietAndSeen(rounds, r - 1, requireMods) && QuietAndSeen(rounds, r, requireMods)
      && (forall q :: 0 <= q <= r ==> !Fails(rounds[q]) && !HasFatal(rounds[q]))
      ==> 0 <= announced <= r
  {
    hide SeenSince, Quiet, Fails, HasFatal;
    assert ReadyAt(rounds, r, requireMods) <==>
      QuietAndSeen(rounds, r - 1, requireMods) && QuietAndSeen(rounds, r, requireMods);
    if announced < 0 || r < announced {
      assert ReadyAt(rounds, r, requireMods) ==> exists q :: 0 <= q <= r && Broken(rounds, q);
    }
  }

  /** Where a watch stands that goes on. */
  datatype Progress = Progress(round: nat, announced: int, evidence: set<Marker>, quietRounds: nat)

  const STARTED := Progress(0, -1, {}, 0)

  /** What the watch keeps of the rounds so far. */
  ghost predicate Follows(rounds: seq<Round>, requireMods: bool, continues: bool, p: Progress) {
    && p.round == |rounds| && Watched(rounds, requireMods, continues, p.announced, Watching)
    && (forall marker :: marker in p.evidence <==> Standing(rounds, |rounds| - 1, marker))
    && (p.quietRounds > 0 <==> rounds != [] && Settled(rounds, |rounds| - 1, requireMods))
    && (p.announced < 0 ==> p.quietRounds < 2)
    && (p.quietRounds == 1 ==> |rounds| < 2 || !Settled(rounds, |rounds| - 2, requireMods))
  }

  /** What was said of earlier rounds stays true. */
  lemma EarlierRounds(rounds: seq<Round>, more: seq<Round>, requireMods: bool)
    requires rounds <= more
    ensures forall r, marker :: -1 <= r < |rounds| ==> (Standing(more, r, marker) <==> Standing(rounds, r, marker))
    ensures forall r :: 0 <= r < |rounds| ==> (Settled(more, r, requireMods) <==> Settled(rounds, r, requireMods))
    ensures forall r :: 0 <= r < |rounds| ==> (ReadyAt(more, r, requireMods) <==> ReadyAt(rounds, r, requireMods))
    ensures forall r :: 0 <= r < |rounds| ==> (Broken(more, r) <==> Broken(rounds, r)) && more[r] == rounds[r]
  {
    hide Shows, Resets, Quiet, Fails, HasFatal;
    forall r, marker, log | -1 <= r < |rounds|
      ensures SeenSince(more, r, marker, log) <==> SeenSince(rounds, r, marker, log)
    {
      assert forall k :: 0 <= k <= r ==> more[k] == rounds[k];
    }
    hide SeenSince;
  }

  /**
   * One turn of the loop of watch: the round is observed, onReady fires if it is the first that ends
   * two settled ones, and the watch ends on a failed follower, on a fatal line before readiness, or
   * because it was only to wait.
   */
  method NextRound(ghost rounds: seq<Round>, round: Round, p: Progress, requireMods: bool, continues: bool)
      returns (next: Progress, ending: Ending)
    requires Follows(rounds, requireMods, continues, p)
    ensures Watched(rounds + [round], requireMods, continues, next.announced, ending)
    ensures match ending
      case Watching => Follows(rounds + [round], requireMods, continues, next)
      case FailedAt(r) => r == |rounds|
      case Returned => next.announced == |rounds|
  {
    hide Fails, HasFatal, Quiet, Shows, Resets, Standing, Complete, Observed;
    ghost var more := rounds + [round];
    EarlierRounds(rounds, more, requireMods);
    assert more[p.round] == round;
    var ok, evidence, ready, quiet := ObserveRound(round, p.evidence, requireMods, p.announced < 0);
    if !ok {
      return p, FailedAt(p.round);
    }
    EvidenceStands(more, p.round, p.evidence, evidence);
    next := Progress(p.round + 1, p.announced, evidence, if ready && quiet then p.quietRounds + 1 else 0);
    ending := Watching;
    if next.quietRounds == 2 && p.announced < 0 {
      next := next.(announced := p.round);
      if !continues {
        ending := Returned;
      }
    }
  }

  /** A watch that has ended looks at no later round. */
  lemma EndedWatch(rounds: seq<Round>, more: seq<Round>, requireMods: bool, continues: bool, announced: int,
                   ending: Ending)
    requires rounds <= more && Watched(rounds, requireMods, continues, announced, ending) && !ending.Watching?
    ensures Watched(more, requireMods, continues, announced, ending)
  {
    EarlierRounds(rounds, more, requireMods);
    hide Standing, Settled, ReadyAt, Broken, Fails;
  }

  /**
   * watch over any history of rounds. onReady fires at most once: exactly in the first round that
   * ends two settled ones, if no round up to it failed or had a fatal line. Before it every fatal
   * line ends the watch, after it none does; a failed follower always does.
   */
  method Watch(rounds: seq<Round>, requireMods: bool, continues: bool) returns (announced: int, ending: Ending)
    ensures Watched(rounds, requireMods, continues, announced, ending)
  {
    hide Follows, Watched;
    WatchStarts(requireMods, continues);
    var p := STARTED;
    for r := 0 to |rounds|
      invariant Follows(rounds[..r], requireMods, continues, p)
    {
      assert rounds[..r] + [rounds[r]] == rounds[..r + 1];
      p, ending := NextRound(rounds[..r], rounds[r], p, requireMods, continues);
      if !ending.Watching? {
        EndedWatch(rounds[..r + 1], rounds, requireMods, continues, p.announced, ending);
        return p.announced, ending;
      }
    }
    assert rounds[..|rounds|] == rounds;
    FollowsIsWatched(rounds, requireMods, continues, p);
    return p.announced, Watching;
  }

  lemma FollowsIsWatched(rounds: seq<Round>, requireMods: bool, continues: bool, p: Progress)
    requires Follows(rounds, requireMods, continues, p)
    ensures Watched(rounds, requireMods, continues, p.announced, Watching)
  {
    hide Watched, Standing, Settled;
  }

  lemma WatchStarts(requireMods: bool, continues: bool)
    ensures Follows([], requireMods, continues, STARTED)
  {
    NothingStands([]);
    hide Standing, Settled;
  }

  lemma NothingStands(rounds: seq<Round>)
    ensures forall marker :: !Standing(rounds, -1, marker)
  {
  }

  lemma EvidenceStands(rounds: seq<Round>, r: nat, evidence: set<Marker>, next: set<Marker>)
    requires r < |rounds| && forall marker :: marker in evidence <==> Standing(rounds, r - 1, marker)
    requires Observed(rounds[r], evidence, next)
    ensures forall marker :: marker in next <==> Standing(rounds, r, marker)
    ensures forall requireMods :: Enough(next, requireMods) <==> Complete(rounds, r, requireMods)
  {
    forall marker
      ensures marker in next <==> Standing(rounds, r, marker)
    {
      SeenNext(rounds, r, marker, if marker.ServerStartup? then Server else BepInEx);
      hide SeenSince, Shows, Resets;
    }
    hide Standing;
  }
}
