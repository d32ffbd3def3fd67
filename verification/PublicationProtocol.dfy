/**
 * Many adapter processes on one state directory, one file operation per step.
 * Every process repeatedly reserves a key, publishes, and settles its reservation; it may crash at any time.
 */
module PublicationProtocol {
  import opened PublicationFiles
  import opened PublishLog

  /** How a turn's dealings with the store ended; `Busy` and `StoreFailed` are errors. */
  datatype Result = Found | FoundUnknown | Contended | Committed | MarkedUnknown | Released | StoreFailed

  /** The file operation, or the await, a process is about to perform. */
  datatype Pc =
    | Idle
    | CheckPublished
    | CheckUnknown
    | CreateLock
    | RecheckPublished
    | RecheckUnknown
    | StatLock(clock: int)   // `Date.now()` is read before the lock is looked at
    | RemoveStale(seen: nat)  // the file that the stat found stale; the removal goes by the path
    | WriteLock(inode: nat)
    | Holding(inode: nat)
    | Publishing(inode: nat)
    | Settling(inode: nat, outcome: PublicationOutcome)
    | Finished(result: Result)

  /**
   * `attempts` counts the rounds of the current `reservePublication`, `firstCreation` how many locks had been
   * created when it was called; `inside` and `outside` measure how long the reservation has been held, in the
   * publish call and out of it.
   */
  datatype Process = Process(
    key: Key, staleAfter: int, pc: Pc, alive: bool,
    attempts: nat, firstCreation: nat, inside: int, outside: int)
  {
    /** It owns a reservation that it has not settled; a crashed process keeps owning it. */
    predicate Holds() {
      pc.WriteLock? || pc.Holding? || pc.Publishing? || pc.Settling?
    }

    /** It has called publish, the call has not been rejected, and no marker records it yet. */
    predicate Launched() {
      pc.Publishing? || (pc.Settling? && !pc.outcome.NotDelivered?)
    }

    /** The next step is one of the store's file operations. */
    predicate Operating() {
      !pc.Idle? && !pc.Holding? && !pc.Publishing? && !pc.Finished?
    }
  }

  /** A lock creation; its position in `creations` is the inode of the file created. */
  datatype Creation = Creation(pid: Pid, key: Key, at: int)

  datatype State = State(
    dir: Directory, procs: map<Pid, Process>, now: int, creations: seq<Creation>, log: seq<Call>)

  datatype Action =
    | Begin(pid: Pid, key: Key, staleAfter: int)
    | FileOp(pid: Pid)
    | StartPublish(pid: Pid)
    | EndPublish(pid: Pid, outcome: PublicationOutcome)
    | Crash(pid: Pid)
    | Tick(elapsed: nat)

  predicate Init(s: State) {
    && s.dir == map[] && s.creations == [] && s.log == []
    && forall p :: p in s.procs ==> s.procs[p].pc.Idle? && s.procs[p].alive
  }

  predicate Enabled(s: State, a: Action) {
    a.Tick? || (
      && a.pid in s.procs
      && var proc := s.procs[a.pid];
      && proc.alive
      && match a
         case Begin(_, _, _) => proc.pc.Idle? || proc.pc.Finished?
         case FileOp(_) => proc.Operating()
         case StartPublish(_) => proc.pc.Holding?
         case EndPublish(_, _) => proc.pc.Publishing?
         case Crash(_) => true
    )
  }

  function Aged(proc: Process, elapsed: nat): Process {
    if proc.pc.Publishing? then proc.(inside := proc.inside + elapsed)
    else if proc.Holds() then proc.(outside := proc.outside + elapsed)
    else proc
  }

  function Next(s: State, a: Action): State
    requires Enabled(s, a)
  {
    match a
    case Tick(elapsed) =>
      s.(now := s.now + elapsed, procs := map p | p in s.procs :: Aged(s.procs[p], elapsed))
    case Begin(p, key, staleAfter) =>
      s.(procs := s.procs[p := Process(key, staleAfter, CheckPublished, true, 1, |s.creations|, 0, 0)])
    case StartPublish(p) =>
      GoTo(s, p, Publishing(s.procs[p].pc.inode)).(log := s.log + [Started(p, s.procs[p].key)])
    case EndPublish(p, outcome) =>
      GoTo(s, p, Settling(s.procs[p].pc.inode, outcome)).(log := s.log + [Ended(p, s.procs[p].key, outcome)])
    case Crash(p) =>
      s.(procs := s.procs[p := s.procs[p].(alive := false)])
    case FileOp(p) => Operate(s, p)
  }

  function GoTo(s: State, p: Pid, pc: Pc): State
    requires p in s.procs
  {
    s.(procs := s.procs[p := s.procs[p].(pc := pc)])
  }

  /** The call starts over, with the same options. */
  function Retry(s: State, p: Pid): State
    requires p in s.procs
  {
    s.(procs := s.procs[p := s.procs[p].(pc := CheckPublished, attempts := s.procs[p].attempts + 1)])
  }

  /** Writing to a file sets its modification time, wherever the file has been moved. */
  function Touched(dir: Directory, inode: nat, now: int): Directory {
    map path | path in dir :: if dir[path].inode == inode then File(now, inode) else dir[path]
  }

  function Operate(s: State, p: Pid): State
    requires p in s.procs && s.procs[p].Operating()
  {
    var proc := s.procs[p];
    var lock := LockFile(proc.key);
    match proc.pc
    case CheckPublished =>
      GoTo(s, p, if PublishedFile(proc.key) in s.dir then Finished(Found) else CheckUnknown)
    case CheckUnknown =>
      GoTo(s, p, if UnknownFile(proc.key) in s.dir then Finished(FoundUnknown) else CreateLock)
    case CreateLock =>
      if lock in s.dir then GoTo(s, p, RecheckPublished)
      else
        var inode := |s.creations|;
        GoTo(s, p, WriteLock(inode)).(
          dir := s.dir[lock := File(s.now, inode)],
          creations := s.creations + [Creation(p, proc.key, s.now)])
    case RecheckPublished =>
      GoTo(s, p, if PublishedFile(proc.key) in s.dir then Finished(Found) else RecheckUnknown)
    case RecheckUnknown =>
      GoTo(s, p, if UnknownFile(proc.key) in s.dir then Finished(FoundUnknown) else StatLock(s.now))
    case StatLock(clock) =>
      if lock !in s.dir then Retry(s, p)
      else if clock - s.dir[lock].mtime < proc.staleAfter then GoTo(s, p, Finished(Contended))
      else GoTo(s, p, RemoveStale(s.dir[lock].inode))
    case RemoveStale(_) =>
      Retry(s, p).(dir := s.dir - {lock})
    case WriteLock(inode) =>
      GoTo(s, p, Holding(inode)).(dir := Touched(s.dir, inode, s.now))
    case Settling(_, outcome) =>
      match outcome {
        case NotDelivered(_) =>
          GoTo(s, p, Finished(Released)).(dir := s.dir - {lock})
        case Delivered(_) =>
          if lock in s.dir
          then GoTo(s, p, Finished(Committed)).(dir := Renamed(s.dir, lock, PublishedFile(proc.key)))
          else GoTo(s, p, Finished(StoreFailed))
        case DeliveryUnknown(_) =>
          if lock in s.dir
          then GoTo(s, p, Finished(MarkedUnknown)).(dir := Renamed(s.dir, lock, UnknownFile(proc.key)))
          else GoTo(s, p, Finished(StoreFailed))
      }
  }

  /** A run: the states passed through, and the action between each and the next. */
  datatype Run = Run(states: seq<State>, actions: seq<Action>) {
    predicate Valid() {
      && |states| == |actions| + 1
      && Init(states[0])
      && forall i :: 0 <= i < |actions| ==> Enabled(states[i], actions[i]) && states[i + 1] == Next(states[i], actions[i])
    }
  }
}
