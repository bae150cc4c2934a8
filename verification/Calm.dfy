/** Disks on which no one else writes: recovery and promotion never refuse, and idle means installed. */
module CalmDisks {
  import opened Prelude
  import opened Records
  import opened Journal
  import opened EntryRecovery
  import opened Machine
  import opened Invariant
  import opened Runs
  import opened Disks
  import opened Stores

  lemma CalmEntry(m: Machine, i: nat)
    requires JournalShape(m.state) && EntriesOk(ModeOf(m), m) && i < |Entries(m)|
    ensures ArtifactsMatchAt(m, Entries(m)[i])
    ensures m.state.promotion.None? && !IsConfigIndex(m, i) ==> Recoverable(Entries(m)[i], ViewAt(m, Entries(m)[i]))
    ensures m.state.promotion.None? && IsConfigIndex(m, i) ==>
      ConfigRecoverable(Entries(m)[i], ViewAt(m, Entries(m)[i]))
  {
    hide IsName, Separated;
    var e := Entries(m)[i];
    assert ValidHashes(e);
    if IsConfigIndex(m, i) {
      assert ConfigOk(ModeOf(m), e, ViewAt(m, e));
    } else {
      assert EntryOk(ModeOf(m), e, ViewAt(m, e));
    }
  }

  lemma ConfigIndex(m: Machine)
    requires m.state.transaction.Some? && m.state.transaction.value.config.Some?
    ensures var n := |m.state.transaction.value.entries|;
      n < |Entries(m)| && Entries(m)[n] == m.state.transaction.value.config.value && IsConfigIndex(m, n)
  {
  }

  /** Whatever a calm run leaves, the artifacts are the journaled ones and every entry can be recovered. */
  lemma CalmIsRecoverable(world: World, m: Machine)
    requires Inv(world, m)
    ensures ArtifactsMatch(m)
    ensures m.state.promotion.None? ==> AllRecoverable(m)
  {
    hide JournalShape, EntriesOk, RecordsPart, ArtifactsOk, ValidTransactionState, LiveOk, ArtifactsMatchAt,
      Recoverable, ConfigRecoverable, JournalOf, IsConfigIndex;
    forall i | 0 <= i < |Entries(m)|
      ensures ArtifactsMatchAt(m, Entries(m)[i])
    {
      CalmEntry(m, i);
    }
    if m.state.promotion.None? && m.state.transaction.Some? {
      forall i | 0 <= i < |m.state.transaction.value.entries|
        ensures Recoverable(Entries(m)[i], ViewAt(m, Entries(m)[i]))
      {
        NotConfigIndex(m, i);
        CalmEntry(m, i);
      }
      if m.state.transaction.value.config.Some? {
        ConfigIndex(m);
        CalmEntry(m, |m.state.transaction.value.entries|);
      }
    }
  }

  lemma NotConfigIndex(m: Machine, i: nat)
    requires m.state.transaction.Some? && i < |m.state.transaction.value.entries|
    ensures !IsConfigIndex(m, i) && i < |Entries(m)|
  {
  }

  lemma CalmDisk(d: Disk)
    requires d.Valid()
    ensures !d.outside ==> ArtifactsMatch(d.M()) && (d.state.promotion.None? ==> AllRecoverable(d.M()))
  {
    hide Grounded, ArtifactsMatch, AllRecoverable, Inv, Ledger;
    SoundNow(d.world, d.outside, d.states, d.log, d.M());
    if !d.outside {
      CalmIsRecoverable(d.world, d.M());
    }
  }

  /** Live files, lock and Active record are those of one generation, or of none. */
  ghost predicate NamesInstallation(d: Disk, g: Option<Generation>)
    reads d
  {
    && d.live - {CONFIG_PATH} == Installation(d.world, g)
    && d.lock == (if g.Some? then Some(g.value.lock) else None)
    && d.state.active.Some? == g.Some? && (g.Some? ==> RecordNames(d.state.active.value, g.value))
  }

  /**
   * The whole history of a calm disk. When it is idle, the live files are the installation of the
   * last generation whose intent became durable, its lock is the durable one and Active names it.
   */
  lemma IdleDiskIsInstalled(d: Disk)
    requires d.Valid() && !d.outside && d.proc.Idle?
    ensures Calm(d.first, d.log) && Exec(d.first, d.log) == d.M()
    ensures NamesInstallation(d, Committed(d.first, d.log, Chosen(d.first)))
  {
    hide Inv, Ledger, Committed, Chosen, Installation, Calm, Exec, Taken, Legal;
    HistoryIsRun(d.world, d.outside, d.states, d.log, d.M(), 0);
    FirstIsSound(d);
    assert d.log[0..] == d.log;
    WholeRunAtomicity(d.world, d.first, d.log);
  }

  lemma FirstIsSound(d: Disk)
    requires d.Valid() && !d.outside
    ensures |d.states| > 0 && Inv(d.world, d.first)
  {
    hide Inv, Ledger, Taken;
    assert Sound(d.world, d.outside, d.states[0]);
  }
}
