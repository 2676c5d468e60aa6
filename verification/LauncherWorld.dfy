/** Everything the launcher's update protocol can see or change
    (apps/server/src/serviceLauncher.ts): the durable disk, the fields of the running
    launcher together with the position it has reached in the transition it is
    executing, and the processes alive. */
module LauncherWorld {
  import opened Collections
  import opened Outcomes
  import opened ServiceProtocol

  type Content = seq<bv8>
  type Files = map<string, Content>

  // ---------------------------------------------------------------- the disk

  /** SQLite persists across the main file and two sidecars. */
  datatype Suffix = Main | Wal | Shm

  const SUFFIX_COUNT := 3

  function SuffixAt(i: nat): Suffix {
    if i == 0 then Main else if i == 1 then Wal else Shm
  }

  function Rank(s: Suffix): nat {
    match s case Main => 0 case Wal => 1 case Shm => 2
  }

  function SuffixText(s: Suffix): string {
    match s case Main => "" case Wal => "-wal" case Shm => "-shm"
  }

  function FileOf(dbPath: string, s: Suffix): string {
    dbPath + SuffixText(s)
  }

  /** The main file and its two sidecars, each with its turn. */
  lemma DatabaseFiles(dbPath: string)
    ensures FileOf(dbPath, Main) == dbPath && FileOf(dbPath, Wal) == dbPath + "-wal" && FileOf(dbPath, Shm) == dbPath + "-shm"
    ensures forall s: Suffix :: Rank(s) < SUFFIX_COUNT && SuffixAt(Rank(s)) == s
  {
    assert dbPath + "" == dbPath;
  }

  lemma FilesDiffer(dbPath: string, s: Suffix, t: Suffix)
    requires s != t
    ensures FileOf(dbPath, s) != FileOf(dbPath, t)
  {
    var n := |dbPath|;
    assert FileOf(dbPath, s)[n..] == SuffixText(s);
    assert FileOf(dbPath, t)[n..] == SuffixText(t);
    assert "-wal"[1] != "-shm"[1];
  }

  /** The three database files at `dbPath` are the same in both file systems; a
      sidecar absent in one is absent in the other. */
  ghost predicate Agree(f: Files, g: Files, dbPath: string) {
    forall s: Suffix :: Get(f, FileOf(dbPath, s)) == Get(g, FileOf(dbPath, s))
  }

  ghost predicate IsSnapshot(copies: map<Suffix, Content>, files: Files, dbPath: string) {
    forall s: Suffix :: Get(copies, s) == Get(files, FileOf(dbPath, s))
  }

  datatype Backup = Backup(copies: map<Suffix, Content>, marker: bool)

  /** The state file, the live files a child may write, the per-update staging and
      backup directories, and the stop marker. */
  datatype Disk = Disk(
    record: ServiceState,
    files: Files,
    staging: map<UpdateId, map<Suffix, Content>>,
    backups: map<UpdateId, Backup>,
    stopMarker: bool)

  // ---------------------------------------------------------------- the launcher

  datatype Role = Active | Trial

  datatype Child = Child(pid: nat, version: Version, role: Role)

  /** What a child sends: a requested target that is not an exact version is `None`. */
  datatype Message = RequestUpdate(target: Option<Version>, dbPath: string) | Prepared(updateId: UpdateId)

  /** A transition waiting in the launcher's queue. */
  datatype Event =
    | Recover
    | FromChild(pid: nat, message: Message)
    | Exited(pid: nat)
    | PreparedTimedOut(pid: nat)
    | HandOff(pid: nat)
    | ChildError(pid: nat)
    | Stop

  /** The arguments of a return to the previous version. */
  datatype Rollback = Rollback(pending: Pending, status: Status, reason: Reason)

  datatype After =
    | ThenTrial(pending: Pending)
    | ThenRestore(rollback: Rollback)
    | ThenStopped
    | ThenFailed
    | ThenIdle

  datatype AfterDiscard = ThenSpawn | ThenTell(child: nat)

  /** Where the running transition stands: each constructor is one awaited operation. */
  datatype Pc =
    | Idle
    | ClearingMarker
    | Recovering
    | Terminating(pid: nat, after: After)
    | BackupEntry(pending: Pending)
    | BackupClean(pending: Pending)
    | BackupCopy(pending: Pending, i: nat, begun: bool)
    | BackupRename(pending: Pending)
    | BackupAbort(pending: Pending)
    | SpawnTrial(pending: Pending)
    | RestoreEntry(rollback: Rollback)
    | RestoreMark(rollback: Rollback)
    | RestoreCopy(rollback: Rollback, i: nat, begun: bool)
    | WriteOutcome(rollback: Rollback)
    | Discarding(id: UpdateId, next: AfterDiscard)
    | SpawnActive
    | Attaching(child: Child)
    | Rejecting
    | WritePending(pending: Pending, pid: nat)
    | SendAccepted(pid: nat)
    | WriteCommitted(pending: Pending, pid: nat)
    | SendCommitted

  /** The fields of a running launcher, its queue of transitions and the timers it
      has set, keyed by handle. */
  datatype Memory = Memory(
    state: ServiceState,
    child: Option<Child>,
    timer: Option<nat>,
    stopRequested: bool,
    stopping: bool,
    done: bool,
    queue: seq<Event>,
    armed: map<nat, Event>,
    pc: Pc)

  /** `alive` maps each live process to the version it runs; `issued` are the update
      identifiers in use, so that a fresh one can be drawn. */
  datatype World = World(
    disk: Disk,
    launcher: Option<Memory>,
    alive: map<nat, Version>,
    nextPid: nat,
    nextTimer: nat,
    issued: set<UpdateId>)
}
