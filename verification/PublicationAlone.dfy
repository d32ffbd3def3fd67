/** A call of `reservePublication` that nobody interferes with: it terminates, and is one atomic step. */
module PublicationAlone {
  import opened PublicationFiles
  import opened PublishLog
  import opened PublicationProtocol
  import opened PublicationSafety

  /** Bounds the file operations a call has still to make when it is left alone. */
  function Remaining(s: State, p: Pid): nat
    requires p in s.procs
  {
    var locked := LockFile(s.procs[p].key) in s.dir;
    match s.procs[p].pc
    case CheckPublished => if locked then 14 else 4
    case CheckUnknown => if locked then 13 else 3
    case CreateLock => if locked then 12 else 2
    case RecheckPublished => if locked then 11 else 7
    case RecheckUnknown => if locked then 10 else 6
    case StatLock(_) => if locked then 9 else 5
    case RemoveStale(_) => if locked then 8 else 5
    case WriteLock(_) => 1
    case _ => 0
  }

  predicate Reserving(s: State, p: Pid) {
    p in s.procs && s.procs[p].alive && s.procs[p].Operating() && !s.procs[p].pc.Settling?
  }

  /** Runs the process's file operations one after the other until its call returns. */
  function RunAlone(s: State, p: Pid): State
    requires Reserving(s, p)
    decreases Remaining(s, p)
  {
    var s' := Next(s, FileOp(p));
    if Reserving(s', p) then RunAlone(s', p) else s'
  }

  /** The process's call has returned what `reservation` says. */
  predicate Returned(s: State, p: Pid, reservation: Reservation) {
    && p in s.procs
    && match reservation
       case Reserved => s.procs[p].pc.Holding?
       case AlreadyPublished => s.procs[p].pc == Finished(Found)
       case PreviouslyUnknown => s.procs[p].pc == Finished(FoundUnknown)
       case Busy => s.procs[p].pc == Finished(Contended)
  }

  lemma FreshInode(s: State, path: Path)
    requires FilesKnown(s) && path !in s.dir
    ensures Touched(s.dir[path := File(s.now, |s.creations|)], |s.creations|, s.now)
      == s.dir[path := File(s.now, |s.creations|)]
  {
    forall other | other in s.dir
      ensures s.dir[other].inode != |s.creations|
    {
      assert FileKnown(s, other);
    }
  }

  /** The process is about to look at the markers, none of them there, and the lock is free. */
  lemma AloneCreates(s: State, p: Pid)
    requires FilesKnown(s) && p in s.procs && s.procs[p].alive
    requires s.procs[p].pc.CreateLock? && LockFile(s.procs[p].key) !in s.dir
    ensures RunAlone(s, p).dir == s.dir[LockFile(s.procs[p].key) := File(s.now, |s.creations|)]
    ensures Returned(RunAlone(s, p), p, Reserved)
  {
    var s1 := Next(s, FileOp(p));
    assert RunAlone(s, p) == RunAlone(s1, p) == Next(s1, FileOp(p));
    FreshInode(s, LockFile(s.procs[p].key));
  }

  lemma AloneUnmarked(s: State, p: Pid)
    requires p in s.procs && s.procs[p].alive && s.procs[p].pc.CheckPublished?
    requires !Marked(s.dir, s.procs[p].key)
    ensures RunAlone(s, p) == RunAlone(GoTo(s, p, CreateLock), p)
  {
    var s1 := Next(s, FileOp(p));
    assert s1 == GoTo(s, p, CheckUnknown);
    var s2 := Next(s1, FileOp(p));
    assert s2 == GoTo(s, p, CreateLock);
    assert RunAlone(s, p) == RunAlone(s1, p) == RunAlone(s2, p);
  }

  lemma AloneLocked(s: State, p: Pid)
    requires p in s.procs && s.procs[p].alive && s.procs[p].pc.CreateLock?
    requires !Marked(s.dir, s.procs[p].key) && LockFile(s.procs[p].key) in s.dir
    ensures RunAlone(s, p) == RunAlone(GoTo(s, p, StatLock(s.now)), p)
  {
    var s1 := Next(s, FileOp(p));
    assert s1 == GoTo(s, p, RecheckPublished);
    var s2 := Next(s1, FileOp(p));
    assert s2 == GoTo(s, p, RecheckUnknown);
    var s3 := Next(s2, FileOp(p));
    assert s3 == GoTo(s, p, StatLock(s.now));
    assert RunAlone(s, p) == RunAlone(s1, p) == RunAlone(s2, p) == RunAlone(s3, p);
  }

  lemma AloneRemoves(s: State, p: Pid)
    requires p in s.procs && s.procs[p].alive && s.procs[p].pc.RemoveStale?
    ensures RunAlone(s, p) == RunAlone(Retry(s, p).(dir := s.dir - {LockFile(s.procs[p].key)}), p)
  {
    var s' := Next(s, FileOp(p));
    assert s' == Retry(s, p).(dir := s.dir - {LockFile(s.procs[p].key)});
  }

  lemma AloneStale(s: State, p: Pid)
    requires p in s.procs && s.procs[p].alive && s.procs[p].pc == StatLock(s.now)
    requires LockFile(s.procs[p].key) in s.dir
    requires s.now - s.dir[LockFile(s.procs[p].key)].mtime >= s.procs[p].staleAfter
    ensures RunAlone(s, p) == RunAlone(GoTo(s, p, RemoveStale(s.dir[LockFile(s.procs[p].key)].inode)), p)
  {
    var s' := Next(s, FileOp(p));
    assert s' == GoTo(s, p, RemoveStale(s.dir[LockFile(s.procs[p].key)].inode));
  }

  /**
   * File operation by file operation, a call that runs alone returns what the one-step `ReserveAlone` returns and
   * leaves the same directory.
   */
  lemma AloneIsAtomic(s: State, p: Pid, key: Key, staleAfter: int)
    requires FilesKnown(s) && Enabled(s, Begin(p, key, staleAfter))
    ensures
      var (dir, reservation) := ReserveAlone(s.dir, key, s.now, staleAfter, |s.creations|);
      var s' := RunAlone(Next(s, Begin(p, key, staleAfter)), p);
      s'.dir == dir && Returned(s', p, reservation)
  {
    var s1 := Next(s, Begin(p, key, staleAfter));
    var lock := LockFile(key);
    if Marked(s.dir, key) {
      AloneMarked(s1, p);
    } else {
      AloneUnmarked(s1, p);
      var s2 := GoTo(s1, p, CreateLock);
      if lock !in s.dir {
        AloneCreates(s2, p);
      } else {
        AloneLocked(s2, p);
        var s3 := GoTo(s2, p, StatLock(s.now));
        if s.now - s.dir[lock].mtime < staleAfter {
          assert RunAlone(s3, p) == Next(s3, FileOp(p));
        } else {
          AloneStale(s3, p);
          var stale := GoTo(s3, p, RemoveStale(s.dir[lock].inode));
          AloneRemoves(stale, p);
          var s4 := Retry(stale, p).(dir := s.dir - {lock});
          AloneAfterRemoval(s, s4, p, lock);
        }
      }
    }
  }

  /**
   * The file operation that settles a reservation leaves the directory that the one-step definition says; without
   * its lock a rejection changes nothing, and recording anything else fails.
   */
  lemma SettlingIsAtomic(s: State, p: Pid)
    requires Enabled(s, FileOp(p)) && s.procs[p].pc.Settling?
    ensures var key, outcome, s' := s.procs[p].key, s.procs[p].pc.outcome, Next(s, FileOp(p));
      && s'.dir == (if LockFile(key) in s.dir then SettleAlone(s.dir, key, outcome) else s.dir)
      && s'.procs[p].pc == Finished(
           match outcome
           case NotDelivered(_) => Released
           case Delivered(_) => if LockFile(key) in s.dir then Committed else StoreFailed
           case DeliveryUnknown(_) => if LockFile(key) in s.dir then MarkedUnknown else StoreFailed)
    ensures var key, outcome, dir' := s.procs[p].key, s.procs[p].pc.outcome, Next(s, FileOp(p)).dir;
      && (outcome.NotDelivered? ==> dir' == s.dir - {LockFile(key)})
      && (outcome.Delivered? && LockFile(key) in s.dir ==> LockBecomes(s.dir, key, PublishedFile(key), dir'))
      && (outcome.DeliveryUnknown? && LockFile(key) in s.dir ==> LockBecomes(s.dir, key, UnknownFile(key), dir'))
  {
  }

  lemma AloneMarked(s: State, p: Pid)
    requires p in s.procs && s.procs[p].alive && s.procs[p].pc.CheckPublished?
    requires Marked(s.dir, s.procs[p].key)
    ensures RunAlone(s, p).dir == s.dir
    ensures Returned(RunAlone(s, p), p,
      if PublishedFile(s.procs[p].key) in s.dir then AlreadyPublished else PreviouslyUnknown)
  {
    var s1 := Next(s, FileOp(p));
    if PublishedFile(s.procs[p].key) in s.dir {
      assert RunAlone(s, p) == s1;
    } else {
      assert RunAlone(s, p) == RunAlone(s1, p) == Next(s1, FileOp(p));
    }
  }

  lemma FilesKnownAfterRemoval(s: State, s4: State, lock: Path)
    requires FilesKnown(s) && s4.dir == s.dir - {lock} && s4.creations == s.creations && s4.now == s.now
    ensures FilesKnown(s4)
  {
    forall path | path in s4.dir
      ensures FileKnown(s4, path)
    {
      assert FileKnown(s, path);
    }
  }

  lemma AloneAfterRemoval(s: State, s4: State, p: Pid, lock: Path)
    requires FilesKnown(s) && p in s4.procs && s4.procs[p].alive && s4.procs[p].pc.CheckPublished?
    requires lock == LockFile(s4.procs[p].key) && s4.dir == s.dir - {lock}
    requires s4.creations == s.creations && s4.now == s.now && !Marked(s.dir, s4.procs[p].key)
    ensures RunAlone(s4, p).dir == s.dir[lock := File(s.now, |s.creations|)]
    ensures Returned(RunAlone(s4, p), p, Reserved)
  {
    FilesKnownAfterRemoval(s, s4, lock);
    AloneUnmarked(s4, p);
    AloneCreates(GoTo(s4, p, CreateLock), p);
    assert s4.dir[lock := File(s.now, |s.creations|)] == s.dir[lock := File(s.now, |s.creations|)];
  }
}
