/** validateTransactionState as the code runs it: one pass that fills the sets of paths seen so far. */
module Validation {
  import opened Prelude
  import opened Records
  import opened Journal

  /** The server-relative artifact paths of the entries before `index`. */
  ghost predicate ArtifactsSeen(id: string, index: nat, seen: set<string>) {
    && (forall i :: 0 <= i < index ==>
          ArtifactServerPath(QuarantineName(id, i)) in seen && ArtifactServerPath(TombstoneName(id, i)) in seen)
    && (forall a :: a in seen ==>
          exists i :: 0 <= i < index &&
            (a == ArtifactServerPath(QuarantineName(id, i)) || a == ArtifactServerPath(TombstoneName(id, i))))
  }

  lemma FreshArtifacts(id: string, index: nat, seen: set<string>)
    requires ArtifactsSeen(id, index, seen)
    ensures ArtifactServerPath(QuarantineName(id, index)) !in seen
    ensures ArtifactServerPath(TombstoneName(id, index)) !in seen
    ensures ArtifactServerPath(QuarantineName(id, index)) != ArtifactServerPath(TombstoneName(id, index))
  {
    forall i | 0 <= i < index
      ensures ArtifactServerPath(QuarantineName(id, index)) != ArtifactServerPath(QuarantineName(id, i))
      ensures ArtifactServerPath(QuarantineName(id, index)) != ArtifactServerPath(TombstoneName(id, i))
      ensures ArtifactServerPath(TombstoneName(id, index)) != ArtifactServerPath(QuarantineName(id, i))
      ensures ArtifactServerPath(TombstoneName(id, index)) != ArtifactServerPath(TombstoneName(id, i))
    {
      OtherArtifacts(id, index, i);
    }
    OtherArtifacts(id, index, index);
  }

  lemma OtherArtifacts(id: string, i: nat, k: nat)
    ensures i != k ==> ArtifactServerPath(QuarantineName(id, i)) != ArtifactServerPath(QuarantineName(id, k))
    ensures i != k ==> ArtifactServerPath(TombstoneName(id, i)) != ArtifactServerPath(TombstoneName(id, k))
    ensures ArtifactServerPath(QuarantineName(id, i)) != ArtifactServerPath(TombstoneName(id, k))
    ensures ArtifactServerPath(TombstoneName(id, i)) != ArtifactServerPath(QuarantineName(id, k))
  {
    ArtifactNamesInjective(id, i, k);
    ArtifactNamesInjective(id, k, i);
    hide QuarantineName, TombstoneName;
    PrefixCancel(STATE_DIRECTORY + "/", QuarantineName(id, i), QuarantineName(id, k));
    PrefixCancel(STATE_DIRECTORY + "/", TombstoneName(id, i), TombstoneName(id, k));
    PrefixCancel(STATE_DIRECTORY + "/", QuarantineName(id, i), TombstoneName(id, k));
    PrefixCancel(STATE_DIRECTORY + "/", TombstoneName(id, i), QuarantineName(id, k));
  }

  lemma PrefixCancel(head: string, a: string, b: string)
    ensures head + a == head + b ==> a == b
  {
    if head + a == head + b {
      assert (head + a)[|head|..] == a && (head + b)[|head|..] == b;
    }
  }

  lemma SeenNext(id: string, index: nat, seen: set<string>)
    requires ArtifactsSeen(id, index, seen)
    ensures ArtifactsSeen(id, index + 1,
      seen + {ArtifactServerPath(QuarantineName(id, index)), ArtifactServerPath(TombstoneName(id, index))})
  {
    hide QuarantineName, TombstoneName, ArtifactServerPath;
  }

  /** The closure validateEntry: checks one entry and adds its paths to both sets. */
  method ValidateEntry(id: string, e: JournalEntry, index: nat, config: bool, livePaths: set<string>,
                       artifactPaths: set<string>)
      returns (ok: bool, live: set<string>, artifacts: set<string>)
    requires ArtifactsSeen(id, index, artifactPaths)
    ensures ok <==> ValidEntry(id, e, index, config) && e.relativePath !in livePaths
    ensures ok ==> live == livePaths + {e.relativePath} && ArtifactsSeen(id, index + 1, artifacts)
  {
    live, artifacts := livePaths, artifactPaths;
    if !IsRelativePath(e.relativePath) {
      return false, live, artifacts;
    }
    LivePathOutside(e.relativePath);
    if Split(e.relativePath, '/')[0] == STATE_DIRECTORY
       || e.relativePath == STATE_DIRECTORY
       || STATE_DIRECTORY + "/" <= e.relativePath {
      return false, live, artifacts;
    }
    if e.relativePath in livePaths {
      return false, live, artifacts;
    }
    live := livePaths + {e.relativePath};
    if e.existed {
      if !e.original.ShaOf? {
        return false, live, artifacts;
      }
    } else if !e.original.NoSha? {
      return false, live, artifacts;
    }
    if e.installed.NoSha? {
      if !e.existed || config {
        return false, live, artifacts;
      }
    } else if !e.installed.ShaOf? {
      return false, live, artifacts;
    }
    if e.tombstone != e.installed {
      return false, live, artifacts;
    }
    if e.quarantinePath != QuarantineName(id, index) || e.tombstonePath != TombstoneName(id, index) {
      return false, live, artifacts;
    }
    FreshArtifacts(id, index, artifactPaths);
    SeenNext(id, index, artifactPaths);
    hide QuarantineName, TombstoneName, ArtifactsSeen, ArtifactServerPath, FirstComponentFree;
    for k := 0 to 2
      invariant k == 0 ==> artifacts == artifactPaths
      invariant k == 1 ==> artifacts == artifactPaths + {ArtifactServerPath(e.quarantinePath)}
      invariant k == 2 ==>
        artifacts == artifactPaths + {ArtifactServerPath(e.quarantinePath), ArtifactServerPath(e.tombstonePath)}
    {
      var path := ArtifactServerPath(if k == 0 then e.quarantinePath else e.tombstonePath);
      if path in artifacts {
        return false, live, artifacts;
      }
      artifacts := artifacts + {path};
    }
    if config && e.relativePath != CONFIG_PATH {
      return false, live, artifacts;
    }
    return true, live, artifacts;
  }

  predicate FirstComponentFree(p: string) { Split(p, '/')[0] != STATE_DIRECTORY }

  /** The three ways of being reserved are one: the first component is the state directory. */
  lemma LivePathOutside(p: string)
    ensures FirstComponentFree(p) ==> p != STATE_DIRECTORY && !(STATE_DIRECTORY + "/" <= p)
  {
    if FirstComponentFree(p) {
      LivePathOutsideState(p, "");
    }
  }

  /** The first `n` entries are acceptable, one by one and together. */
  predicate AcceptedUpTo(id: string, all: seq<JournalEntry>, managed: nat, n: nat)
    requires n <= |all|
  {
    && (forall i :: 0 <= i < n ==> ValidEntry(id, all[i], i, i == managed))
    && DistinctPaths(all[..n])
  }

  predicate PathsOf(all: seq<JournalEntry>, live: set<string>) {
    && (forall i :: 0 <= i < |all| ==> all[i].relativePath in live)
    && (forall p :: p in live ==> exists i :: 0 <= i < |all| && all[i].relativePath == p)
  }

  lemma AcceptedMeans(state: State)
    requires state.transaction.Some?
    ensures var j := state.transaction.value;
      ValidTransactionState(state) <==>
        && state.candidate.Some? && state.candidate.value.id == j.generationID
        && state.candidate.value.status.CandidateStatus? && !j.phase.OtherPhase? && IsName(j.generationID)
        && AcceptedUpTo(j.generationID, AllEntries(j), |j.entries|, |AllEntries(j)|)
  {
    hide ValidEntry, IsName;
    var j := state.transaction.value;
    assert AllEntries(j)[..|AllEntries(j)|] == AllEntries(j);
  }

  lemma AcceptNext(id: string, all: seq<JournalEntry>, managed: nat, n: nat, live: set<string>)
    requires n < |all| && AcceptedUpTo(id, all, managed, n) && PathsOf(all[..n], live)
    ensures AcceptedUpTo(id, all, managed, n + 1) <==>
      ValidEntry(id, all[n], n, n == managed) && all[n].relativePath !in live
    ensures PathsOf(all[..n + 1], live + {all[n].relativePath})
  {
    hide ValidEntry;
    assert all[..n + 1] == all[..n] + [all[n]];
    assert all[..n + 1][n] == all[n];
  }

  lemma AcceptedPrefix(id: string, all: seq<JournalEntry>, managed: nat, n: nat)
    requires n <= |all| && AcceptedUpTo(id, all, managed, |all|)
    ensures AcceptedUpTo(id, all, managed, n)
  {
    hide ValidEntry;
    assert all[..|all|] == all;
  }

  /** Acceptance is exactly ValidTransactionState; the final collision check can never fire. */
  method ValidateTransactionState(state: State) returns (ok: bool)
    ensures ok <==> ValidTransactionState(state)
  {
    if state.transaction.None? {
      return state.candidate.None?;
    }
    AcceptedMeans(state);
    var j := state.transaction.value;
    EmptyIsNoName();
    hide ValidTransactionState, ValidEntry, IsName, AcceptedUpTo;
    if state.candidate.None? || state.candidate.value.id == "" || state.candidate.value.id != j.generationID {
      return false;
    }
    if !state.candidate.value.status.CandidateStatus? || j.phase.OtherPhase? || !IsName(state.candidate.value.id) {
      return false;
    }
    ok := ValidateEntries(j.generationID, j);
  }

  /** The loop over the managed entries, the configuration entry, and the collision pass. */
  method ValidateEntries(id: string, j: TransactionJournal) returns (ok: bool)
    ensures ok <==> AcceptedUpTo(id, AllEntries(j), |j.entries|, |AllEntries(j)|)
  {
    hide ValidEntry, ArtifactsSeen, AcceptedUpTo, PathsOf;
    ghost var all := AllEntries(j);
    var live, artifacts: set<string> := {}, {};
    var index := 0;
    NothingSeen(id, all, |j.entries|);
    while index < |j.entries|
      invariant 0 <= index <= |j.entries|
      invariant AcceptedUpTo(id, all, |j.entries|, index) && PathsOf(all[..index], live)
      invariant ArtifactsSeen(id, index, artifacts)
    {
      AcceptNext(id, all, |j.entries|, index, live);
      ok, live, artifacts := ValidateEntry(id, j.entries[index], index, false, live, artifacts);
      if !ok {
        if AcceptedUpTo(id, all, |j.entries|, |all|) {
          AcceptedPrefix(id, all, |j.entries|, index + 1);
        }
        return false;
      }
      index := index + 1;
    }
    if j.config.Some? {
      AcceptNext(id, all, |j.entries|, index, live);
      ok, live, artifacts := ValidateEntry(id, j.config.value, |j.entries|, true, live, artifacts);
      if !ok {
        return false;
      }
    }
    assert all[..|all|] == all;
    RejectCollisions(live, artifacts, id, all, |j.entries|);
    return true;
  }

  lemma EmptyIsNoName()
    ensures !IsName("")
  {
  }

  /** The last pass over the live paths, which no accepted journal can fail. */
  method RejectCollisions(live: set<string>, artifacts: set<string>, ghost id: string, ghost all: seq<JournalEntry>,
                          ghost managed: nat)
    requires AcceptedUpTo(id, all, managed, |all|) && PathsOf(all, live) && ArtifactsSeen(id, |all|, artifacts)
    ensures live !! artifacts
  {
    hide AcceptedUpTo, PathsOf, ArtifactsSeen;
    var rest := live;
    while rest != {}
      invariant rest <= live
      invariant (live - rest) !! artifacts
      decreases rest
    {
      var path :| path in rest;
      NoCollision(id, all, managed, path, live, artifacts);
      if path in artifacts {
        assert false; // the collision the code still looks for
      }
      rest := rest - {path};
    }
  }

  lemma NothingSeen(id: string, all: seq<JournalEntry>, managed: nat)
    ensures ArtifactsSeen(id, 0, {}) && AcceptedUpTo(id, all, managed, 0) && PathsOf(all[..0], {})
  {
  }

  /** A validated live path is outside the state directory, so it is no artifact. */
  lemma NoCollision(id: string, all: seq<JournalEntry>, managed: nat, path: string, live: set<string>,
                    artifacts: set<string>)
    requires AcceptedUpTo(id, all, managed, |all|) && PathsOf(all, live) && ArtifactsSeen(id, |all|, artifacts)
    requires path in live
    ensures path !in artifacts
  {
    var i :| 0 <= i < |all| && all[i].relativePath == path;
    assert ValidEntry(id, all[i], i, i == managed);
    hide QuarantineName, TombstoneName, Split, IsRelativePath;
    if path in artifacts {
      var k :| 0 <= k < |all| && (path == ArtifactServerPath(QuarantineName(id, k)) ||
                                  path == ArtifactServerPath(TombstoneName(id, k)));
      LivePathOutsideState(path, QuarantineName(id, k));
      LivePathOutsideState(path, TombstoneName(id, k));
    }
  }
}
