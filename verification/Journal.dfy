/**
 * The transaction journal: canonical artifact names, acceptance by validateTransactionState,
 * and the separation of paths that every accepted journal has.
 */
module Journal {
  import opened Prelude
  import opened Records

  // ---- Artifact names ----

  function Decimal(n: nat): (s: string)
    ensures |s| > 0
  {
    if n < 10 then ['0' + n as char] else Decimal(n / 10) + ['0' + (n % 10) as char]
  }

  function Zeros(n: nat): (s: string)
    ensures |s| == n
  {
    if n == 0 then "" else ['0'] + Zeros(n - 1)
  }

  /** fmt.Sprintf("%04d", n). */
  function Padded(n: nat): string {
    var digits := Decimal(n);
    if |digits| < 4 then Zeros(4 - |digits|) + digits else digits
  }

  /** The number a string of digits spells, read from the right. */
  function Spelled(s: string): int {
    if s == "" then 0 else 10 * Spelled(s[..|s| - 1]) + (s[|s| - 1] as int - '0' as int)
  }

  lemma {:induction false} SpelledDecimal(n: nat)
    ensures Spelled(Decimal(n)) == n
  {
    if n < 10 {
      assert Decimal(n)[..0] == "";
    } else {
      SpelledDecimal(n / 10);
      var s := Decimal(n);
      assert s[..|s| - 1] == Decimal(n / 10);
    }
  }

  lemma {:induction false} SpelledZeros(n: nat, s: string)
    ensures Spelled(Zeros(n) + s) == Spelled(s)
  {
    if s != "" {
      SpelledZeros(n, s[..|s| - 1]);
      var t := Zeros(n) + s;
      assert t[..|t| - 1] == Zeros(n) + s[..|s| - 1];
    } else {
      assert Zeros(n) + s == Zeros(n);
      ZerosSpellZero(n);
    }
  }

  lemma {:induction false} ZerosSpellZero(n: nat)
    ensures Spelled(Zeros(n)) == 0
    ensures n > 0 ==> Zeros(n)[..n - 1] == Zeros(n - 1) && Zeros(n)[n - 1] == '0'
  {
    if n > 0 {
      ZerosSpellZero(n - 1);
      assert Zeros(n) == ['0'] + Zeros(n - 1);
      if n > 1 {
        assert Zeros(n)[..n - 1] == ['0'] + Zeros(n - 1)[..n - 2];
      }
    }
  }

  /** Zero padding loses nothing, for indices of any width. */
  lemma PaddedInjective(i: nat, j: nat)
    requires Padded(i) == Padded(j)
    ensures i == j
  {
    PaddedSpells(i);
    PaddedSpells(j);
  }

  lemma PaddedSpells(n: nat)
    ensures Spelled(Padded(n)) == n
  {
    SpelledDecimal(n);
    if |Decimal(n)| < 4 {
      SpelledZeros(4 - |Decimal(n)|, Decimal(n));
    }
  }

  predicate Digits(s: string) {
    forall i :: 0 <= i < |s| ==> '0' <= s[i] <= '9'
  }

  lemma {:induction false} DecimalDigits(n: nat)
    ensures Digits(Decimal(n)) && (|Decimal(n)| > 1 ==> Decimal(n)[0] != '0')
  {
    if n >= 10 {
      DecimalDigits(n / 10);
      assert Decimal(n)[0] == Decimal(n / 10)[0];
    }
  }

  /** At least four digits, with no more zeros in front than that takes, that spell the number. */
  lemma PaddedMeans(n: nat)
    ensures Digits(Padded(n)) && Spelled(Padded(n)) == n
    ensures |Padded(n)| >= 4 && (|Padded(n)| > 4 ==> Padded(n)[0] != '0')
  {
    PaddedSpells(n);
    DecimalDigits(n);
    if |Decimal(n)| < 4 {
      ZerosAreDigits(4 - |Decimal(n)|);
    }
  }

  lemma {:induction false} ZerosAreDigits(n: nat)
    ensures Digits(Zeros(n))
  {
    if n > 0 {
      ZerosAreDigits(n - 1);
    }
  }

  function GenerationPrefix(id: string): string { "generations/" + id + "/" }

  function ArtifactDirectory(id: string): string { GenerationPrefix(id) + "rollback/quarantine/" }

  function QuarantineName(id: string, index: nat): string { ArtifactDirectory(id) + Padded(index) + ".displaced" }

  function TombstoneName(id: string, index: nat): string { ArtifactDirectory(id) + Padded(index) + ".tombstone" }

  /** Artifact names are injective in the index, and no quarantine name is a tombstone name. */
  lemma ArtifactNamesInjective(id: string, i: nat, j: nat)
    ensures QuarantineName(id, i) == QuarantineName(id, j) ==> i == j
    ensures TombstoneName(id, i) == TombstoneName(id, j) ==> i == j
    ensures QuarantineName(id, i) != TombstoneName(id, j)
  {
    var d := ArtifactDirectory(id);
    if QuarantineName(id, i) == QuarantineName(id, j) {
      SuffixCancel(d, Padded(i), Padded(j), ".displaced");
      PaddedInjective(i, j);
    }
    if TombstoneName(id, i) == TombstoneName(id, j) {
      SuffixCancel(d, Padded(i), Padded(j), ".tombstone");
      PaddedInjective(i, j);
    }
    var q, t := QuarantineName(id, i), TombstoneName(id, j);
    assert q[|q| - 1] == 'd' && t[|t| - 1] == 'e';
  }

  lemma SuffixCancel(head: string, a: string, b: string, tail: string)
    requires head + a + tail == head + b + tail
    ensures a == b
  {
    var s := head + a + tail;
    assert |a| == |b|;
    assert s[|head|..|head| + |a|] == a;
    assert (head + b + tail)[|head|..|head| + |b|] == b;
  }

  /** An artifact lies below a generation directory exactly when the identifiers are the same name. */
  lemma ArtifactBelowGeneration(id: string, other: string, index: nat)
    requires '/' !in id && '/' !in other
    ensures GenerationPrefix(other) <= QuarantineName(id, index) <==> other == id
    ensures GenerationPrefix(other) <= TombstoneName(id, index) <==> other == id
  {
    BelowGeneration(id, other, "rollback/quarantine/" + Padded(index) + ".displaced");
    assert QuarantineName(id, index) == GenerationPrefix(id) + ("rollback/quarantine/" + Padded(index) + ".displaced");
    BelowGeneration(id, other, "rollback/quarantine/" + Padded(index) + ".tombstone");
    assert TombstoneName(id, index) == GenerationPrefix(id) + ("rollback/quarantine/" + Padded(index) + ".tombstone");
  }

  lemma BelowGeneration(id: string, other: string, rest: string)
    requires '/' !in id && '/' !in other
    ensures GenerationPrefix(other) <= GenerationPrefix(id) + rest <==> other == id
  {
    var path := GenerationPrefix(id) + rest;
    var base := |"generations/"|;
    if GenerationPrefix(other) <= path {
      assert forall k :: 0 <= k < |other| ==> path[base + k] == other[k];
      assert path[base + |other|] == '/';
      assert forall k :: 0 <= k < |id| ==> path[base + k] == id[k];
      assert path[base + |id|] == '/';
      assert |other| == |id|;
      assert other == id;
    }
  }

  // ---- Acceptance ----

  /** All entries of a journal in artifact order: the managed files, then the configuration. */
  function AllEntries(j: TransactionJournal): seq<JournalEntry> {
    if j.config.Some? then j.entries + [j.config.value] else j.entries
  }

  predicate ValidEntry(id: string, e: JournalEntry, index: nat, config: bool) {
    && IsRelativePath(e.relativePath)
    && Split(e.relativePath, '/')[0] != STATE_DIRECTORY
    && (if e.existed then e.original.ShaOf? else e.original.NoSha?)
    && (e.installed.NoSha? ==> e.existed && !config)
    && !e.installed.BadSha?
    && e.tombstone == e.installed
    && e.quarantinePath == QuarantineName(id, index)
    && e.tombstonePath == TombstoneName(id, index)
    && (config ==> e.relativePath == CONFIG_PATH)
  }

  predicate DistinctPaths(entries: seq<JournalEntry>) {
    forall i, k :: 0 <= i < k < |entries| ==> entries[i].relativePath != entries[k].relativePath
  }

  /** What a durable state must satisfy: the accepting condition of validateTransactionState. */
  predicate ValidTransactionState(state: State) {
    if state.transaction.None? then state.candidate.None?
    else
      var j := state.transaction.value;
      && state.candidate.Some?
      && state.candidate.value.id == j.generationID
      && state.candidate.value.status.CandidateStatus?
      && !j.phase.OtherPhase?
      && IsName(j.generationID)
      && var all := AllEntries(j);
      && (forall i :: 0 <= i < |j.entries| ==> ValidEntry(j.generationID, all[i], i, false))
      && (j.config.Some? ==> ValidEntry(j.generationID, all[|j.entries|], |j.entries|, true))
      && DistinctPaths(all)
  }

  /** Live, quarantine and tombstone paths of different entries never meet. */
  predicate Separated(entries: seq<JournalEntry>) {
    && (forall i, k :: 0 <= i < |entries| && 0 <= k < |entries| && i != k ==>
          && entries[i].relativePath != entries[k].relativePath
          && entries[i].quarantinePath != entries[k].quarantinePath
          && entries[i].tombstonePath != entries[k].tombstonePath)
    && (forall i, k :: 0 <= i < |entries| && 0 <= k < |entries| ==>
          entries[i].quarantinePath != entries[k].tombstonePath)
  }

  /** Journal separation: acceptance implies pairwise distinct live, quarantine and tombstone paths. */
  lemma AcceptedJournalIsSeparated(state: State)
    requires ValidTransactionState(state) && state.transaction.Some?
    ensures Separated(AllEntries(state.transaction.value))
  {
    hide ValidTransactionState, QuarantineName, TombstoneName;
    var j := state.transaction.value;
    var all := AllEntries(j);
    AcceptedNames(state);
    forall i, k | 0 <= i < |all| && 0 <= k < |all|
      ensures i != k ==> && all[i].relativePath != all[k].relativePath
                         && all[i].quarantinePath != all[k].quarantinePath
                         && all[i].tombstonePath != all[k].tombstonePath
      ensures all[i].quarantinePath != all[k].tombstonePath
    {
      ArtifactNamesInjective(j.generationID, i, k);
    }
  }

  lemma AcceptedNames(state: State)
    requires ValidTransactionState(state) && state.transaction.Some?
    ensures var j := state.transaction.value;
      && DistinctPaths(AllEntries(j))
      && forall i :: 0 <= i < |AllEntries(j)| ==>
           && AllEntries(j)[i].quarantinePath == QuarantineName(j.generationID, i)
           && AllEntries(j)[i].tombstonePath == TombstoneName(j.generationID, i)
  {
    hide QuarantineName, TombstoneName, IsRelativePath, IsName, Split;
  }

  /** The state directory, relative to the server directory; artifacts are named below it. */
  function ArtifactServerPath(artifact: string): string { STATE_DIRECTORY + "/" + artifact }

  /** A live path outside the reserved first component is no path below the state directory. */
  lemma LivePathOutsideState(p: string, artifact: string)
    requires Split(p, '/')[0] != STATE_DIRECTORY
    ensures p != STATE_DIRECTORY
    ensures !(STATE_DIRECTORY + "/" <= p)
    ensures p != ArtifactServerPath(artifact)
  {
    if p == STATE_DIRECTORY {
      SplitSingle(p, '/');
    }
    if STATE_DIRECTORY + "/" <= p {
      var rest := p[|STATE_DIRECTORY| + 1..];
      assert p == STATE_DIRECTORY + ['/'] + rest;
      SplitPart(STATE_DIRECTORY, rest, '/');
    }
    assert STATE_DIRECTORY + "/" <= ArtifactServerPath(artifact);
  }
}
