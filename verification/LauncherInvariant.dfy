/** What every step of the update protocol keeps. The invariant relates the world to
    the part of the past that rollback must bring back: the files each version left
    when its last process died. */
module LauncherInvariant {
  import opened Collections
  import opened Outcomes
  import opened ServiceProtocol
  import opened LauncherWorld
  import opened LauncherSteps
  import opened RecordHistory

  /** Observations over a run: the files on disk at its start, the files left by each
      version's latest death, the identifiers of all updates recorded, and the database
      path of those recorded as pending. */
  datatype History = History(
    base: Files,
    left: map<Version, Files>,
    seen: set<UpdateId>,
    paths: map<UpdateId, string>)

  function LeftBy(h: History, v: Version): Files {
    if v in h.left then h.left[v] else h.base
  }

  function Died(w: World, w': World): set<Version> {
    set pid | pid in w.alive && pid !in w'.alive :: w.alive[pid]
  }

  function Recording(paths: map<UpdateId, string>, s: ServiceState): map<UpdateId, string> {
    if s.IsPending() then paths[s.PendingUpdate().id := s.PendingUpdate().dbPath] else paths
  }

  function Observe(h: History, w: World, w': World): History {
    h.(left := h.left + (map v | v in Died(w, w') :: w.disk.files),
       seen := h.seen + Ids(w'.disk.record),
       paths := Recording(h.paths, w'.disk.record))
  }

  // ---------------------------------------------------------------- the invariant

  ghost predicate AllRun(alive: map<nat, Version>, v: Version) {
    forall pid :: pid in alive ==> alive[pid] == v
  }

  /** The live database is what one process left: the previous version's last, or the
      latest trial's. */
  ghost predicate Untorn(files: Files, h: History, p: Pending) {
    Agree(files, LeftBy(h, p.from), p.dbPath) || files == LeftBy(h, p.target)
  }

  /** Holds of the durable state whether or not a launcher is running, so it is what a
      crash leaves for recovery to work with. */
  ghost predicate DurableInv(w: World, h: History) {
    var d := w.disk;
    && Decodes(d.record)
    && Ids(d.record) <= h.seen <= w.issued
    && d.backups.Keys <= w.issued
    && (forall pid :: pid in w.alive ==> pid < w.nextPid)
    && (match d.record.update
        case None => AllRun(w.alive, d.record.active)
        case Some(InProgress(p)) =>
          && p.id in h.paths && h.paths[p.id] == p.dbPath
          && (if p.id in d.backups then
                && AllRun(w.alive, p.target)
                && IsSnapshot(d.backups[p.id].copies, LeftBy(h, p.from), p.dbPath)
                && (w.alive == map[] && !d.backups[p.id].marker ==> Untorn(d.files, h, p))
              else
                AllRun(w.alive, p.from) && (w.alive == map[] ==> Agree(d.files, LeftBy(h, p.from), p.dbPath)))
        case Some(Finished(id, from, _, status, _)) =>
          && AllRun(w.alive, d.record.active)
          && (status != Committed && id in h.paths && w.alive == map[] ==>
                Agree(d.files, LeftBy(h, from), h.paths[id])))
  }

  /** The one process that may be alive. */
  function Owned(m: Memory): set<nat> {
    match m.pc
    case Terminating(pid, _) => {pid}
    case Attaching(c) => {c.pid}
    case _ => if m.child.Some? then {m.child.value.pid} else {}
  }

  /** The positions at which a child can be attached. */
  predicate Attended(pc: Pc) {
    pc.Idle? || pc.Rejecting? || pc.WritePending? || pc.SendAccepted? || pc.WriteCommitted?
    || (pc.Discarding? && pc.next.ThenTell?) || pc.SendCommitted?
  }

  ghost predicate ChildInv(w: World, h: History, c: Child) {
    var s := w.disk.record;
    && c.pid < w.nextPid
    && (c.pid in w.alive ==> w.alive[c.pid] == c.version)
    && (w.alive == map[] ==> w.disk.files == LeftBy(h, c.version))
    && (match c.role
        case Active => c.version == s.active && (s.IsPending() ==> s.PendingUpdate().id !in w.disk.backups)
        case Trial => s.IsPending() && s.PendingUpdate().target == c.version && s.PendingUpdate().id in w.disk.backups)
  }

  ghost predicate IsRecorded(w: World, p: Pending) {
    w.disk.record.update == Some(InProgress(p))
  }

  /** The first `i` files are copied and the rest not begun, but for one in progress. */
  ghost predicate CopiedSoFar(copies: map<Suffix, Content>, files: Files, dbPath: string, i: nat, begun: bool) {
    && i <= SUFFIX_COUNT
    && (forall s: Suffix | Rank(s) < i :: Get(copies, s) == Get(files, FileOf(dbPath, s)))
    && (forall s: Suffix | s in copies :: Rank(s) < i || (Rank(s) == i && begun))
  }

  ghost predicate RestoredSoFar(copies: map<Suffix, Content>, files: Files, dbPath: string, i: nat) {
    && i <= SUFFIX_COUNT
    && (forall s: Suffix | Rank(s) < i :: Get(files, FileOf(dbPath, s)) == Get(copies, s))
  }

  ghost predicate PcInv(w: World, m: Memory, h: History) {
    var d := w.disk;
    match m.pc
    case Idle => true
    case ClearingMarker => true
    case Recovering => true
    case Terminating(_, ThenTrial(p)) => !m.stopping && IsRecorded(w, p) && p.id !in d.backups
    case Terminating(_, ThenRestore(r)) => !m.stopping && IsRecorded(w, r.pending) && r.status != Committed
    case Terminating(_, _) => m.stopping
    case BackupEntry(p) => IsRecorded(w, p) && (p.id in d.backups ==> !d.backups[p.id].marker)
    case BackupClean(p) => IsRecorded(w, p) && p.id !in d.backups
    case BackupCopy(p, i, begun) =>
      && IsRecorded(w, p) && p.id !in d.backups
      && p.id in d.staging && CopiedSoFar(d.staging[p.id], d.files, p.dbPath, i, begun)
    case BackupRename(p) =>
      IsRecorded(w, p) && p.id !in d.backups && p.id in d.staging && IsSnapshot(d.staging[p.id], d.files, p.dbPath)
    case BackupAbort(p) => IsRecorded(w, p)
    case SpawnTrial(p) => IsRecorded(w, p) && p.id in d.backups && !d.backups[p.id].marker
    case RestoreEntry(r) => IsRecorded(w, r.pending) && r.status != Committed
    case RestoreMark(r) => IsRecorded(w, r.pending) && r.status != Committed && r.pending.id in d.backups
    case RestoreCopy(r, i, _) =>
      var p := r.pending;
      && IsRecorded(w, p) && r.status != Committed
      && p.id in d.backups && d.backups[p.id].marker && RestoredSoFar(d.backups[p.id].copies, d.files, p.dbPath, i)
    case WriteOutcome(r) =>
      && IsRecorded(w, r.pending) && r.status != Committed
      && Agree(d.files, LeftBy(h, r.pending.from), r.pending.dbPath)
    case Discarding(id, next) =>
      && d.record.update.Some? && d.record.update.value.Finished? && d.record.update.value.id == id
      && (next.ThenTell? ==> m.child.Some?)
    case SpawnActive => !d.record.IsPending()
    case Attaching(c) => ChildInv(w, h, c) && (c.role == Active ==> !d.record.IsPending())
    case Rejecting => true
    case WritePending(p, pid) =>
      && !d.record.IsPending() && m.child.Some?
      && m.child.value == Child(pid, p.from, Active)
      && Compare(p.target, p.from) > 0 && IsAbsolute(p.dbPath)
      && p.id in w.issued && p.id !in d.backups && p.id !in h.seen
    case SendAccepted(pid) => m.child.Some? && m.child.value.pid == pid
    case WriteCommitted(p, pid) =>
      IsRecorded(w, p) && m.child.Some? && m.child.value == Child(pid, p.target, Trial)
    case SendCommitted => true
  }

  ghost predicate MemoryInv(w: World, m: Memory, h: History) {
    && (m.done ==> m.stopping)
    && (m.stopping ==> m.child.None? && (m.pc.Idle? || m.pc.Terminating?))
    && (!m.stopping ==> m.state == w.disk.record)
    && w.alive.Keys <= Owned(m)
    && (m.child.Some? ==> Attended(m.pc) && ChildInv(w, h, m.child.value))
    && (forall t :: t in m.armed ==> m.armed[t].PreparedTimedOut? || m.armed[t].HandOff?)
    && (forall pid: nat :: Exited(pid) in m.queue ==> pid < w.nextPid && pid !in w.alive)
    && (Recover in m.queue ==>
          m.queue[0] == Recover && Recover !in m.queue[1..] && m.pc == Idle && m.child.None? && !m.stopping)
    && PcInv(w, m, h)
  }

  ghost predicate Inv(w: World, h: History) {
    && DurableInv(w, h)
    && (match w.launcher
        case None => w.alive == map[]
        case Some(m) => MemoryInv(w, m, h))
  }
}
