/**
 * The durable records: what state.json, package-lock.json and a generation's metadata hold.
 *
 * A SHA-256 is a free constructor over the bytes it was taken from, so the hash is injective
 * by construction; `NoSha` is the empty string and `BadSha` a string that is not 64 hex digits.
 */
module Records {
  import opened Prelude
  import opened Packages

  datatype Sha = NoSha | BadSha(text: string) | ShaOf(content: string)

  datatype Status = CandidateStatus | ActiveStatus | PreviousStatus | FailedStatus | OtherStatus(text: string)

  datatype GenerationRecord = GenerationRecord(id: string, lockDigest: LockDigest, status: Status)

  datatype JournalEntry = JournalEntry(
    relativePath: string,
    quarantinePath: string,
    tombstonePath: string,
    existed: bool,
    original: Sha,
    installed: Sha,
    tombstone: Sha)

  datatype Phase = ApplyingPhase | AppliedPhase | OtherPhase(text: string)

  datatype TransactionJournal = TransactionJournal(
    generationID: string,
    phase: Phase,
    entries: seq<JournalEntry>,
    config: Option<JournalEntry>)

  datatype PromotionJournal = PromotionJournal(generationID: string, lock: PackageLock)

  datatype ProcessIdentity = ProcessIdentity(pid: int, startTicks: nat)

  /** The identity of a process that runs: process numbers are positive. */
  type Running = p: ProcessIdentity | p.pid > 0 witness ProcessIdentity(1, 0)

  datatype RuntimeState = RuntimeState(
    phase: string,
    ready: bool,
    degraded: bool,
    reason: string,
    server: ProcessIdentity,
    generation: string,
    steamBuild: string)

  datatype State = State(
    steamBuild: string,
    active: Option<GenerationRecord>,
    previous: Option<GenerationRecord>,
    candidate: Option<GenerationRecord>,
    failed: Option<GenerationRecord>,
    transaction: Option<TransactionJournal>,
    promotion: Option<PromotionJournal>,
    pendingCleanup: seq<string>,
    runtime: RuntimeState)

  /** The managed inventory of a generation: path to the bytes whose hash the manifest lists. */
  datatype ManagedManifest = ManagedManifest(
    generationID: string,
    lockDigest: LockDigest,
    files: map<string, string>)

  /** A generation directory: metadata, overlay files and the BepInEx.cfg template. */
  datatype Generation = Generation(
    manifest: ManagedManifest,
    lock: PackageLock,
    overlay: map<string, string>,
    configTemplate: string)

  const CONFIG_PATH := "BepInEx/config/BepInEx.cfg"
  const STATE_DIRECTORY := ".docker-vrising"

  /** generationIsReferenced: some record of the state names the generation. */
  predicate IsReferenced(state: State, id: string) {
    || (state.active.Some? && state.active.value.id == id)
    || (state.previous.Some? && state.previous.value.id == id)
    || (state.candidate.Some? && state.candidate.value.id == id)
    || (state.failed.Some? && state.failed.value.id == id)
  }

  /** cleanupGenerationIDs(Previous, Failed): the distinct non-empty identifiers, in that order. */
  function CleanupGenerationIDs(previous: Option<GenerationRecord>, failed: Option<GenerationRecord>): seq<string> {
    var first := if previous.Some? && previous.value.id != "" then [previous.value.id] else [];
    if failed.Some? && failed.value.id != "" && failed.value.id !in first then first + [failed.value.id] else first
  }

  /** isManagedBepInExPath and isManagedRuntimePath. */
  predicate IsManagedRuntimePath(p: string) {
    || p in [".doorstop_version", "doorstop_config.ini", "winhttp.dll"]
    || "dotnet/" <= p
    || "BepInEx/core/" <= p
    || "BepInEx/patchers/" <= p
    || "BepInEx/plugins/saltydk-managed/" <= p
  }

  /** Three files of the loader, and everything below four directories. */
  lemma ManagedPathMeans(p: string)
    ensures IsManagedRuntimePath(p) <==>
      || p == ".doorstop_version" || p == "doorstop_config.ini" || p == "winhttp.dll"
      || exists rest :: p == "dotnet/" + rest || p == "BepInEx/core/" + rest || p == "BepInEx/patchers/" + rest
                        || p == "BepInEx/plugins/saltydk-managed/" + rest
  {
    var dirs := ["dotnet/", "BepInEx/core/", "BepInEx/patchers/", "BepInEx/plugins/saltydk-managed/"];
    forall i | 0 <= i < |dirs|
      ensures dirs[i] <= p <==> exists rest :: p == dirs[i] + rest
    {
      if dirs[i] <= p {
        assert p == dirs[i] + p[|dirs[i]|..];
      }
    }
    assert dirs[0] == "dotnet/" && dirs[1] == "BepInEx/core/" && dirs[2] == "BepInEx/patchers/" &&
      dirs[3] == "BepInEx/plugins/saltydk-managed/";
  }

  /** validateManagedFiles over an inventory without duplicates. */
  predicate ValidManifest(manifest: ManagedManifest) {
    && IsRelativePath(manifest.generationID)
    && manifest.lockDigest != NoDigest
    && forall p :: p in manifest.files ==> IsRelativePath(p) && IsManagedRuntimePath(p)
  }
}
