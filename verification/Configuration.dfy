/**
 * The configuration file over whole runs without outside writers: the game rewrites it, Apply edits
 * it and recovery may leave either version, but it is never lost and never anything else.
 */
module Configuration {
  import opened Prelude
  import opened Records
  import opened Journal
  import opened EntryRecovery
  import opened Machine
  import opened Invariant
  import opened Ledgers
  import opened Preservation
  import opened Runs

  function ConfigEntry(m: Machine): Option<JournalEntry> {
    if m.state.transaction.Some? then m.state.transaction.value.config else None
  }

  /** What is in quarantine for the journaled configuration. */
  function Backup(m: Machine): Option<string> {
    if ConfigEntry(m).Some? then ViewAt(m, ConfigEntry(m).value).quarantine else None
  }

  /** There is a configuration: live, or in quarantine while it is being swapped. */
  predicate HasConfig(m: Machine) {
    CONFIG_PATH in m.live || Backup(m).Some?
  }

  /** Both versions, and the one a journal may install, come from these. */
  predicate ConfigFrom(m: Machine, sources: set<string>) {
    && (CONFIG_PATH in m.live ==> m.live[CONFIG_PATH] in sources)
    && (Backup(m).Some? ==> Backup(m).value in sources)
    && (ConfigEntry(m).Some? && ConfigEntry(m).value.installed.ShaOf? ==>
         ConfigEntry(m).value.installed.content in sources)
  }

  /** What an event brings in: what the game wrote, or the edit a journal is about to install. */
  function Brought(ev: Event): set<string> {
    match ev
    case RewriteConfig(content) => {content}
    case Begin(j) => if j.config.Some? && j.config.value.installed.ShaOf? then {j.config.value.installed.content}
      else {}
    case _ => {}
  }

  function Sources(m: Machine, run: seq<Event>): set<string> {
    (if CONFIG_PATH in m.live then {m.live[CONFIG_PATH]} else {}) + AllBrought(run)
  }

  function AllBrought(run: seq<Event>): set<string> {
    if run == [] then {} else Brought(run[0]) + AllBrought(run[1..])
  }

  /** One step, seen from the configuration. */
  ghost predicate Carried(m: Machine, w: Machine, brought: set<string>) {
    && (HasConfig(m) ==> HasConfig(w))
    && forall sources :: ConfigFrom(m, sources) ==> ConfigFrom(w, sources + brought)
  }

  lemma SameConfig(m: Machine, w: Machine)
    requires Get(w.live, CONFIG_PATH) == Get(m.live, CONFIG_PATH)
    requires ConfigEntry(w) == ConfigEntry(m) && Backup(w) == Backup(m)
    ensures Carried(m, w, {})
  {
    hide Backup, ConfigEntry;
    assert forall sources: set<string> :: sources + {} == sources;
  }

  /** Steps on files other than the configuration, or on no file, leave it alone. */
  lemma OtherEntryCarries(m: Machine, index: nat, v: View, proc: Proc)
    requires JournalShape(m.state) && m.state.transaction.Some? && index < |m.state.transaction.value.entries|
    requires Entries(m)[index].relativePath != CONFIG_PATH
    ensures Carried(m, WithView(m, Entries(m)[index], v).(proc := proc), {})
  {
    hide IsName, ValidHashes;
    var w := WithView(m, Entries(m)[index], v).(proc := proc);
    WithViewFrame(m, Entries(m), index, v);
    hide Separated, WithView;
    assert Get(w.live, CONFIG_PATH) == Get(m.live, CONFIG_PATH) by {
      WithViewLive(m, Entries(m)[index], v);
    }
    if ConfigEntry(m).Some? {
      var n := |m.state.transaction.value.entries|;
      assert Entries(m)[n] == ConfigEntry(m).value;
      assert ViewAt(w, Entries(m)[n]) == ViewAt(WithView(m, Entries(m)[index], v), Entries(m)[n]);
    }
    WithViewState(m, Entries(m)[index], v);
    SameConfig(m, w);
  }

  lemma WithViewLive(m: Machine, e: JournalEntry, v: View)
    ensures forall p :: p != e.relativePath ==> Get(WithView(m, e, v).live, p) == Get(m.live, p)
    ensures Get(WithView(m, e, v).live, e.relativePath) == v.live
  {
  }

  lemma WithViewState(m: Machine, e: JournalEntry, v: View)
    ensures WithView(m, e, v).state == m.state
  {
  }

  /** The view of the configuration after work on it. */
  lemma ConfigView(m: Machine, v: View, proc: Proc)
    requires JournalShape(m.state) && ConfigEntry(m).Some?
    ensures var e, w := ConfigEntry(m).value, WithView(m, ConfigEntry(m).value, v).(proc := proc);
      && e.relativePath == CONFIG_PATH && ConfigEntry(w) == ConfigEntry(m) && w.state == m.state
      && Get(w.live, CONFIG_PATH) == v.live && Backup(w) == v.quarantine
      && ViewAt(m, e).live == Get(m.live, CONFIG_PATH) && Backup(m) == ViewAt(m, e).quarantine
  {
    hide IsName, ValidHashes;
    var n := |m.state.transaction.value.entries|;
    assert Entries(m)[n] == ConfigEntry(m).value;
    WithViewFrame(m, Entries(m), n, v);
    var e := ConfigEntry(m).value;
    WithViewLive(m, e, v);
    WithViewState(m, e, v);
    hide WithView, Separated;
    assert ViewAt(WithView(m, e, v).(proc := proc), e) == ViewAt(WithView(m, e, v), e);
  }

  /** Work on the configuration carries it if a version stays, and each comes from a version before or the edit. */
  lemma ConfigWorkCarries(m: Machine, v: View, proc: Proc)
    requires JournalShape(m.state) && ConfigEntry(m).Some?
    requires HasConfig(m) ==> v.live.Some? || v.quarantine.Some?
    requires v.live.Some? ==> v.live in {Get(m.live, CONFIG_PATH), Backup(m), Bytes(ConfigEntry(m).value.installed)}
    requires v.quarantine.Some? ==> v.quarantine in {Get(m.live, CONFIG_PATH), Backup(m)}
    ensures Carried(m, WithView(m, ConfigEntry(m).value, v).(proc := proc), {})
  {
    ConfigView(m, v, proc);
    hide JournalShape, WithView, ViewAt, Backup, ConfigEntry;
    assert forall sources: set<string> :: sources + {} == sources;
  }

  lemma ConfigMoveCarries(m: Machine, index: nat, move: Move)
    requires JournalShape(m.state) && EntriesOk(ModeOf(m), m) && IsConfigIndex(m, index)
    requires Enabled(m, MoveFile(index, move)) && Undisturbed(m, MoveFile(index, move))
    ensures Carried(m, Step(m, MoveFile(index, move)), {})
  {
    var e := Entries(m)[index];
    var v := ViewAt(m, e);
    assert ConfigEntry(m) == Some(e);
    ConfigView(m, v, m.proc);
    MoveStepIs(m, index, move);
    ConfigMoveKeeps(m, index, move);
    hide JournalShape, EntriesOk, Enabled, Undisturbed, WithView, Step, ViewAt, Carried;
    ConfigWorkCarries(m, After(e, v, move), m.proc);
  }

  lemma ConfigMoveKeeps(m: Machine, index: nat, move: Move)
    requires EntriesOk(ModeOf(m), m) && IsConfigIndex(m, index)
    requires Enabled(m, MoveFile(index, move)) && Undisturbed(m, MoveFile(index, move))
    ensures var e := Entries(m)[index];
      var v, w := ViewAt(m, e), After(e, ViewAt(m, e), move);
      && (v.live.Some? || v.quarantine.Some? ==> w.live.Some? || w.quarantine.Some?)
      && (w.live.Some? ==> w.live in {v.live, v.quarantine, Bytes(e.installed)})
      && (w.quarantine.Some? ==> w.quarantine in {v.live, v.quarantine})
  {
    hide ViewAt;
  }

  lemma ConfigTearCarries(m: Machine, index: nat)
    requires JournalShape(m.state) && IsConfigIndex(m, index) && Enabled(m, TearFile(index))
    ensures Carried(m, Step(m, TearFile(index)), {})
  {
    var e := Entries(m)[index];
    assert ConfigEntry(m) == Some(e);
    ConfigView(m, ViewAt(m, e), m.proc);
    TornStepIs(m, index);
    var v := View(Bytes(e.original), Bytes(e.original), ViewAt(m, e).tombstone);
    assert ValidHashes(e);
    assert Bytes(e.original) in {Get(m.live, CONFIG_PATH), Backup(m)};
    hide JournalShape, Enabled, WithView, Step, ViewAt, Carried;
    ConfigWorkCarries(m, v, Recovering);
  }

  // ---- Steps on records and directories ----

  lemma RewriteCarries(m: Machine, content: string)
    requires JournalShape(m.state) && Enabled(m, RewriteConfig(content))
    ensures Carried(m, Step(m, RewriteConfig(content)), {content})
  {
    var w := Step(m, RewriteConfig(content));
    assert Backup(w) == Backup(m) && ConfigEntry(w) == ConfigEntry(m);
    hide Backup, ConfigEntry;
  }

  lemma BeginCarries(m: Machine, j: TransactionJournal)
    requires Enabled(m, Begin(j))
    ensures Carried(m, Step(m, Begin(j)), Brought(Begin(j)))
  {
    var w := Step(m, Begin(j));
    NoBackupYet(m, j);
    assert ConfigEntry(m).None? && ConfigEntry(w) == j.config && w.live == m.live;
    hide Backup, Enabled, Step;
  }

  lemma NoBackupYet(m: Machine, j: TransactionJournal)
    requires Enabled(m, Begin(j))
    ensures Backup(Step(m, Begin(j))).None? && Backup(m).None?
  {
    var w := Step(m, Begin(j));
    if j.config.Some? {
      var n := |j.entries|;
      assert AllEntries(j)[n] == j.config.value;
      hide IsName, JournalOf, ConsistentGeneration;
      BeginArtifactsAbsent(w.state, m.artifacts, n);
    }
  }

  lemma FinishCarries(m: Machine)
    requires Enabled(m, FinishRecovery) && Undisturbed(m, FinishRecovery) && JournalShape(m.state)
    ensures Carried(m, Step(m, FinishRecovery), {})
  {
    if ConfigEntry(m).Some? {
      ConfigView(m, ViewAt(m, ConfigEntry(m).value), m.proc);
    }
    var w := Step(m, FinishRecovery);
    assert w.live == m.live && ConfigEntry(w).None?;
    assert Backup(m).Some? ==> CONFIG_PATH in m.live;
    hide Enabled, Undisturbed, Step, JournalShape;
    assert forall sources: set<string> :: sources + {} == sources;
  }

  lemma SwitchCarries(m: Machine)
    requires Enabled(m, Switch) && JournalShape(m.state)
    ensures Carried(m, Step(m, Switch), {})
  {
    var w := Step(m, Switch);
    assert w.live == m.live && ConfigEntry(w).None?;
    if ConfigEntry(m).Some? {
      assert Entries(m)[|m.state.transaction.value.entries|] == ConfigEntry(m).value;
    }
    assert Backup(m).None?;
    hide Enabled, Step, JournalShape;
    assert forall sources: set<string> :: sources + {} == sources;
  }

  lemma RemovalCarries(m: Machine, id: string)
    requires Ledger(m) && UnreferencedGeneration(m, id)
    ensures Carried(m, WithoutGeneration(m, id), {})
  {
    hide WithoutGeneration, GenerationPrefix, IsName, Separated, ValidHashes;
    var w := WithoutGeneration(m, id);
    WithoutGenerationIs(m, id);
    if ConfigEntry(m).Some? {
      var n := |m.state.transaction.value.entries|;
      assert Entries(m)[n] == ConfigEntry(m).value;
      RemovalKeepsViews(m, id, n);
    }
    assert ConfigEntry(w) == ConfigEntry(m) && Backup(w) == Backup(m);
    SameConfig(m, w);
  }

  lemma WithoutGenerationIs(m: Machine, id: string)
    ensures var w := WithoutGeneration(m, id); w.state == m.state && w.live == m.live
  {
  }

  lemma RecordsCarry(m: Machine, ev: Event)
    requires Enabled(m, ev)
    requires !ev.MoveFile? && !ev.TearFile? && !ev.Begin? && !ev.FinishRecovery? && !ev.Switch? && !ev.RewriteConfig?
    requires !ev.Discard? && !ev.RemoveGeneration? && !ev.Operate?
    ensures Carried(m, Step(m, ev), {}) && Brought(ev) == {}
  {
    hide Carried, ViewAt;
    var w := Step(m, ev);
    assert w.live == m.live && w.artifacts == m.artifacts;
    assert ConfigEntry(w) == ConfigEntry(m);
    if ConfigEntry(m).Some? {
      SameView(m, w, ConfigEntry(m).value);
    }
    SameConfig(m, w);
  }

  lemma SameView(m: Machine, w: Machine, e: JournalEntry)
    requires w.live == m.live && w.artifacts == m.artifacts
    ensures ViewAt(w, e) == ViewAt(m, e)
  {
  }

  lemma FileCarries(m: Machine, ev: Event)
    requires Ledger(m) && EntriesOk(ModeOf(m), m) && Enabled(m, ev) && Undisturbed(m, ev) &&
      (ev.MoveFile? || ev.TearFile?)
    ensures Carried(m, Step(m, ev), {})
  {
    var index := ev.index;
    if IsConfigIndex(m, index) {
      hide Carried, RecordsPart, ArtifactsOk, ValidTransactionState, Step, Enabled, Undisturbed, EntriesOk;
      if ev.MoveFile? {
        ConfigMoveCarries(m, index, ev.move);
      } else {
        ConfigTearCarries(m, index);
      }
    } else {
      ManagedFileCarries(m, ev);
    }
  }

  lemma ManagedFileCarries(m: Machine, ev: Event)
    requires Ledger(m) && Enabled(m, ev) && (ev.MoveFile? || ev.TearFile?) && !IsConfigIndex(m, ev.index)
    ensures Carried(m, Step(m, ev), {})
  {
    var index := ev.index;
    ManagedPath(m, index);
    var e := Entries(m)[index];
    if ev.MoveFile? {
      MoveStepIs(m, index, ev.move);
      hide Carried, Step, Enabled, Ledger, WithView, ViewAt;
      OtherEntryCarries(m, index, After(e, ViewAt(m, e), ev.move), m.proc);
    } else {
      TornStepIs(m, index);
      hide Carried, Step, Enabled, Ledger, WithView, ViewAt;
      OtherEntryCarries(m, index, View(Bytes(e.original), Bytes(e.original), ViewAt(m, e).tombstone), Recovering);
    }
  }

  lemma ManagedPath(m: Machine, index: nat)
    requires Ledger(m) && index < |Entries(m)| && !IsConfigIndex(m, index)
    ensures JournalShape(m.state) && m.state.transaction.Some? && index < |m.state.transaction.value.entries|
    ensures Entries(m)[index].relativePath != CONFIG_PATH
  {
    hide RecordsPart, ArtifactsOk, ValidTransactionState, JournalShape;
  }

  lemma StepCarries(world: World, m: Machine, ev: Event)
    requires Inv(world, m) && Enabled(m, ev) && Undisturbed(m, ev)
    ensures Carried(m, Step(m, ev), Brought(ev))
  {
    hide Ledger, Inv, JournalShape, EntriesOk, Enabled, Undisturbed, Step, Carried, Brought;
    InvIs(world, m);
    BroughtBy(ev);
    match ev {
      case RewriteConfig(content) => RewriteCarries(m, content);
      case Begin(j) => BeginCarries(m, j);
      case FinishRecovery => FinishCarries(m);
      case Switch => SwitchCarries(m);
      case MoveFile(_, _) => FileCarries(m, ev);
      case TearFile(_) => FileCarries(m, ev);
      case Discard(id) => DirectoryCarries(m, ev);
      case RemoveGeneration => DirectoryCarries(m, ev);
      case Operate(_) => CalmIsNotOperate(m, ev);
      case _ => RecordsCarry(m, ev);
    }
  }

  lemma BroughtBy(ev: Event)
    ensures ev.RewriteConfig? ==> Brought(ev) == {ev.content}
    ensures !ev.RewriteConfig? && !ev.Begin? ==> Brought(ev) == {}
  {
  }

  lemma InvIs(world: World, m: Machine)
    requires Inv(world, m)
    ensures Ledger(m) && EntriesOk(ModeOf(m), m) && JournalShape(m.state)
  {
    hide RecordsPart, ArtifactsOk, ValidTransactionState, EntriesOk, LiveOk, JournalShape;
  }

  lemma DirectoryCarries(m: Machine, ev: Event)
    requires Ledger(m) && Enabled(m, ev) && (ev.Discard? || ev.RemoveGeneration?)
    ensures Carried(m, Step(m, ev), {})
  {
    hide Carried, Ledger, WithoutGeneration;
    RemovalCarries(m, if ev.Discard? then ev.id else m.state.pendingCleanup[0]);
  }

  // ---- Whole runs ----

  lemma {:induction false} RunCarries(world: World, m: Machine, run: seq<Event>, sources: set<string>)
    requires Inv(world, m) && Calm(m, run) && ConfigFrom(m, sources)
    ensures HasConfig(m) ==> HasConfig(Exec(m, run))
    ensures ConfigFrom(Exec(m, run), sources + AllBrought(run))
    decreases |run|
  {
    hide Inv, Enabled, Undisturbed, Step, HasConfig, ConfigFrom, Brought;
    if run == [] {
      assert sources + {} == sources;
    } else {
      StepCarries(world, m, run[0]);
      StepPreserves(world, m, run[0]);
      CarriedIs(m, Step(m, run[0]), Brought(run[0]), sources);
      RunCarries(world, Step(m, run[0]), run[1..], sources + Brought(run[0]));
      assert sources + Brought(run[0]) + AllBrought(run[1..]) == sources + (Brought(run[0]) + AllBrought(run[1..]));
    }
  }

  lemma NothingBrought()
    ensures AllBrought([]) == {}
  {
  }

  lemma IdleHasNoBackup(world: World, m: Machine)
    requires Inv(world, m) && m.proc.Idle?
    ensures Backup(m).None? && ConfigEntry(m).None? && (HasConfig(m) <==> CONFIG_PATH in m.live)
  {
    hide JournalPart, GenerationsOk, RecordsOk, CleanupOk, LockOk, EntriesOk, LiveOk;
  }

  lemma CarriedIs(m: Machine, w: Machine, brought: set<string>, sources: set<string>)
    requires Carried(m, w, brought) && ConfigFrom(m, sources)
    ensures (HasConfig(m) ==> HasConfig(w)) && ConfigFrom(w, sources + brought)
  {
    hide HasConfig, ConfigFrom;
  }

  /**
   * Over any undisturbed run that starts at rest: a configuration that is there is never lost, and at
   * rest it is live. What is there is always the one of the start, one the game wrote, or an edit that
   * some journal was to install. If the run brings in none of those, it is the one of the start.
   */
  lemma ConfigurationKept(world: World, m: Machine, run: seq<Event>)
    requires Inv(world, m) && m.proc.Idle? && Calm(m, run)
    ensures var w := Exec(m, run);
      && (CONFIG_PATH in m.live ==> HasConfig(w) && (w.proc.Idle? ==> CONFIG_PATH in w.live))
      && ConfigFrom(w, Sources(m, run))
      && (CONFIG_PATH in m.live && w.proc.Idle? && AllBrought(run) == {} ==> w.live[CONFIG_PATH] == m.live[CONFIG_PATH])
  {
    hide Inv, Calm, Exec, AllBrought, HasConfig, Backup, ConfigEntry;
    IdleHasNoBackup(world, m);
    assert AllBrought([]) == {} by {
      NothingBrought();
    }
    RunCarries(world, m, run, Sources(m, []));
    RunPreserves(world, m, run);
    if Exec(m, run).proc.Idle? {
      IdleHasNoBackup(world, Exec(m, run));
    }
    assert Sources(m, []) + AllBrought(run) == Sources(m, run);
  }
}
