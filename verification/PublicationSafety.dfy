/** What every run of many processes on one state directory keeps, file operation by file operation. */
module PublicationSafety {
  import opened PublicationFiles
  import opened PublishLog
  import opened PublicationProtocol

  // ----- facts that no interleaving, crash or stale-lock removal can break

  ghost predicate FileKnown(s: State, path: Path)
    requires path in s.dir
  {
    && s.dir[path].inode < |s.creations|
    && s.creations[s.dir[path].inode].key == path.key
    && s.creations[s.dir[path].inode].at <= s.dir[path].mtime
  }

  ghost predicate FilesKnown(s: State) {
    && (forall path :: path in s.dir ==> FileKnown(s, path))
    && (forall i :: 0 <= i < |s.creations| ==> s.creations[i].at <= s.now)
  }

  ghost predicate HolderKnown(s: State, p: Pid)
    requires p in s.procs
  {
    var proc := s.procs[p];
    && (!proc.pc.Idle? ==> proc.firstCreation <= |s.creations|)
    && (proc.pc.StatLock? ==> proc.pc.clock <= s.now)
    && (proc.Operating() && !proc.Holds() ==> proc.inside == 0 && proc.outside == 0)
    && (proc.Holds() ==>
      && proc.pc.inode < |s.creations|
      && s.creations[proc.pc.inode].pid == p
      && s.creations[proc.pc.inode].key == proc.key
      && proc.inside + proc.outside == s.now - s.creations[proc.pc.inode].at)
  }

  ghost predicate Known(s: State) {
    FilesKnown(s) && forall p :: p in s.procs ==> HolderKnown(s, p)
  }

  /** A file operation leaves a file as it was, touches it, renames it from the lock, or creates it. */
  lemma FilesAfterOperation(s: State, p: Pid, path: Path)
    requires p in s.procs && s.procs[p].Operating() && path in Operate(s, p).dir
    ensures var s', file, lock := Operate(s, p), Operate(s, p).dir[path], LockFile(s.procs[p].key);
      || (s'.creations == s.creations && path in s.dir && file == s.dir[path])
      || (s'.creations == s.creations && path in s.dir && file == File(s.now, s.dir[path].inode))
      || (s'.creations == s.creations && lock in s.dir && path.key == lock.key && file == s.dir[lock])
      || (s'.creations == s.creations + [Creation(p, s.procs[p].key, s.now)]
          && if path in s.dir then file == s.dir[path] else path == lock && file == File(s.now, |s.creations|))
  {
  }

  /** A file operation leaves a known file, or one just created or renamed from a known lock. */
  lemma FileKnownAfterOperation(s: State, p: Pid, path: Path)
    requires FilesKnown(s) && p in s.procs && s.procs[p].Operating() && path in Operate(s, p).dir
    ensures FileKnown(Operate(s, p), path)
  {
    FilesAfterOperation(s, p, path);
    if path in s.dir {
      assert FileKnown(s, path);
    }
    if LockFile(s.procs[p].key) in s.dir {
      assert FileKnown(s, LockFile(s.procs[p].key));
    }
  }

  lemma FileKnownStep(s: State, a: Action, path: Path)
    requires FilesKnown(s) && Enabled(s, a) && path in Next(s, a).dir
    ensures FileKnown(Next(s, a), path)
  {
    if a.FileOp? {
      FileKnownAfterOperation(s, a.pid, path);
    } else {
      assert FileKnown(s, path);
    }
  }

  lemma FilesKnownStep(s: State, a: Action)
    requires FilesKnown(s) && Enabled(s, a)
    ensures FilesKnown(Next(s, a))
  {
    forall path | path in Next(s, a).dir
      ensures FileKnown(Next(s, a), path)
    {
      FileKnownStep(s, a, path);
    }
    assert forall i :: 0 <= i < |s.creations| ==> s.creations[i].at <= s.now;
  }

  lemma HolderKnownAfterOperation(s: State, p: Pid)
    requires p in s.procs && s.procs[p].Operating() && HolderKnown(s, p)
    ensures HolderKnown(Operate(s, p), p)
  {
  }

  lemma BystanderKnown(s: State, p: Pid, other: Pid)
    requires p in s.procs && s.procs[p].Operating()
    requires other in s.procs && other != p && HolderKnown(s, other)
    ensures HolderKnown(Operate(s, p), other)
  {
  }

  lemma HolderKnownStep(s: State, a: Action, p: Pid)
    requires Enabled(s, a) && p in s.procs && HolderKnown(s, p)
    ensures HolderKnown(Next(s, a), p)
  {
    if a.FileOp? {
      if a.pid == p {
        HolderKnownAfterOperation(s, p);
      } else {
        BystanderKnown(s, a.pid, p);
      }
    }
  }

  lemma KnownStep(s: State, a: Action)
    requires Known(s) && Enabled(s, a)
    ensures Known(Next(s, a))
  {
    FilesKnownStep(s, a);
    forall p | p in Next(s, a).procs
      ensures HolderKnown(Next(s, a), p)
    {
      HolderKnownStep(s, a, p);
    }
  }

  lemma {:induction false} KnownAlways(run: Run, i: nat)
    requires run.Valid() && i < |run.states|
    ensures Known(run.states[i])
  {
    if i > 0 {
      KnownAlways(run, i - 1);
      KnownStep(run.states[i - 1], run.actions[i - 1]);
    }
  }

  // ----- mutual exclusion

  ghost predicate HoldsKey(s: State, p: Pid, key: Key) {
    p in s.procs && s.procs[p].Holds() && s.procs[p].key == key
  }

  /** The lock file at the process's path is the very file it created. */
  ghost predicate InPlace(s: State, p: Pid)
    requires p in s.procs && s.procs[p].Holds()
  {
    var lock := LockFile(s.procs[p].key);
    lock in s.dir && s.dir[lock].inode == s.procs[p].pc.inode
  }

  ghost predicate LiveLocksInPlace(s: State) {
    forall p :: p in s.procs && s.procs[p].alive && s.procs[p].Holds() ==> InPlace(s, p)
  }

  /** No two live processes hold unsettled reservations of one key. */
  ghost predicate MutualExclusion(s: State) {
    forall p, q, key ::
      HoldsKey(s, p, key) && HoldsKey(s, q, key) && s.procs[p].alive && s.procs[q].alive ==> p == q
  }

  /** The removal of a stale lock (publication-state.ts:53) that is about to delete a live process's lock. */
  ghost predicate TakesLiveLock(s: State, a: Action) {
    && a.FileOp? && Enabled(s, a) && s.procs[a.pid].pc.RemoveStale?
    && exists p :: HoldsKey(s, p, s.procs[a.pid].key) && s.procs[p].alive && InPlace(s, p)
  }

  lemma InPlaceExcludes(s: State)
    requires Known(s) && LiveLocksInPlace(s)
    ensures MutualExclusion(s)
  {
    forall p, q, key |
      HoldsKey(s, p, key) && HoldsKey(s, q, key) && s.procs[p].alive && s.procs[q].alive
      ensures p == q
    {
      assert HolderKnown(s, p) && HolderKnown(s, q);
      assert InPlace(s, p) && InPlace(s, q);
    }
  }

  /** Only removing a stale lock or settling takes a lock file away. */
  lemma LockKept(s: State, a: Action, key: Key)
    requires Enabled(s, a) && LockFile(key) in s.dir
    requires a.FileOp? && s.procs[a.pid].key == key ==>
      !s.procs[a.pid].pc.RemoveStale? && !s.procs[a.pid].pc.Settling?
    ensures LockFile(key) in Next(s, a).dir
    ensures Next(s, a).dir[LockFile(key)].inode == s.dir[LockFile(key)].inode
  {
  }

  lemma HoldingKept(s: State, a: Action, p: Pid)
    requires Enabled(s, a) && p in s.procs && Next(s, a).procs[p].Holds()
    ensures s.procs[p].Holds() && !(a.FileOp? && a.pid == p && s.procs[p].pc.Settling?) ==>
      Next(s, a).procs[p].key == s.procs[p].key && Next(s, a).procs[p].pc.inode == s.procs[p].pc.inode
    ensures s.procs[p].Holds() ==> !(a.FileOp? && a.pid == p && s.procs[p].pc.Settling?)
    ensures !s.procs[p].Holds() ==> InPlace(Next(s, a), p)
  {
  }

  lemma LiveInPlaceStep(s: State, a: Action, p: Pid)
    requires Known(s) && Enabled(s, a) && LiveLocksInPlace(s) && MutualExclusion(s)
    requires !TakesLiveLock(s, a)
    requires p in s.procs && s.procs[p].alive && Next(s, a).procs[p].Holds()
    ensures InPlace(Next(s, a), p)
  {
    HoldingKept(s, a, p);
    if s.procs[p].Holds() {
      assert InPlace(s, p);
      assert HoldsKey(s, p, s.procs[p].key);
      if a.FileOp? && s.procs[a.pid].key == s.procs[p].key {
        assert s.procs[a.pid].Holds() ==> HoldsKey(s, a.pid, s.procs[p].key);
      }
      LockKept(s, a, s.procs[p].key);
    }
  }

  lemma DeadStayDead(s: State, a: Action, p: Pid)
    requires Enabled(s, a) && p in Next(s, a).procs && Next(s, a).procs[p].alive
    ensures p in s.procs && s.procs[p].alive
  {
  }

  lemma LiveLocksStep(s: State, a: Action, s': State)
    requires Known(s) && Enabled(s, a) && s' == Next(s, a) && LiveLocksInPlace(s)
    requires !TakesLiveLock(s, a)
    ensures LiveLocksInPlace(s')
  {
    InPlaceExcludes(s);
    forall p | p in s'.procs && s'.procs[p].alive && s'.procs[p].Holds()
      ensures InPlace(s', p)
    {
      DeadStayDead(s, a, p);
      LiveInPlaceStep(s, a, p);
    }
  }

  lemma TakingLosesLock(s: State, a: Action)
    requires Enabled(s, a) && TakesLiveLock(s, a)
    ensures !LiveLocksInPlace(Next(s, a))
  {
    var p :| HoldsKey(s, p, s.procs[a.pid].key) && s.procs[p].alive && InPlace(s, p);
    assert !InPlace(Next(s, a), p);
  }

  /** Runs in which no stale-lock removal deletes the lock of a live process. */
  ghost predicate RemovalsSpareTheLiving(run: Run)
    requires run.Valid()
  {
    forall i :: 0 <= i < |run.actions| ==> !TakesLiveLock(run.states[i], run.actions[i])
  }

  lemma {:induction false} LiveLocksAlways(run: Run, i: nat)
    requires run.Valid() && RemovalsSpareTheLiving(run) && i < |run.states|
    ensures LiveLocksInPlace(run.states[i])
  {
    if i > 0 {
      LiveLocksAlways(run, i - 1);
      KnownAlways(run, i - 1);
      LiveLocksStep(run.states[i - 1], run.actions[i - 1], run.states[i]);
    }
  }

  /**
   * Many processes, one file operation per step, crashes allowed: every live reservation keeps its lock file
   * throughout a run exactly when no stale-lock removal in the run deletes the lock of a live process: nothing else
   * that a process does takes one. (Which removals do is the subject of `PublicationTiming`.)
   */
  lemma LocksKeptExactly(run: Run)
    requires run.Valid()
    ensures (forall i :: 0 <= i < |run.states| ==> LiveLocksInPlace(run.states[i])) <==> RemovalsSpareTheLiving(run)
  {
    if RemovalsSpareTheLiving(run) {
      forall i | 0 <= i < |run.states|
        ensures LiveLocksInPlace(run.states[i])
      {
        LiveLocksAlways(run, i);
      }
    }
    if forall i :: 0 <= i < |run.states| ==> LiveLocksInPlace(run.states[i]) {
      forall i | 0 <= i < |run.actions|
        ensures !TakesLiveLock(run.states[i], run.actions[i])
      {
        assert LiveLocksInPlace(run.states[i + 1]);
        if TakesLiveLock(run.states[i], run.actions[i]) {
          TakingLosesLock(run.states[i], run.actions[i]);
        }
      }
    }
  }

  /** In such runs no two live processes ever hold the same key. */
  lemma MutualExclusionAlways(run: Run, i: nat)
    requires run.Valid() && RemovalsSpareTheLiving(run) && i < |run.states|
    ensures MutualExclusion(run.states[i])
  {
    LiveLocksAlways(run, i);
    KnownAlways(run, i);
    InPlaceExcludes(run.states[i]);
  }

  /** Conversely, once a live holder's lock is gone, any idle process can walk into a second reservation. */
  lemma LostLockAdmitsSecondHolder(s: State, p: Pid, q: Pid, key: Key, staleAfter: int) returns (s': State)
    requires HoldsKey(s, p, key) && s.procs[p].alive
    requires LockFile(key) !in s.dir && !Marked(s.dir, key)
    requires q in s.procs && s.procs[q].alive && s.procs[q].pc.Idle?
    ensures
      var s1 := Next(s, Begin(q, key, staleAfter));
      && Enabled(s1, FileOp(q))
      && var s2 := Next(s1, FileOp(q));
      && Enabled(s2, FileOp(q))
      && var s3 := Next(s2, FileOp(q));
      && Enabled(s3, FileOp(q))
      && s' == Next(s3, FileOp(q))
    ensures !MutualExclusion(s')
  {
    s' := Next(Next(Next(Next(s, Begin(q, key, staleAfter)), FileOp(q)), FileOp(q)), FileOp(q));
    assert HoldsKey(s', p, key) && HoldsKey(s', q, key);
  }

  // ----- undisturbed runs: the lock file and the reservation are one

  /** A stale-lock removal that is about to delete some lock, its owner alive or not. */
  ghost predicate TakesLock(s: State, a: Action) {
    a.FileOp? && Enabled(s, a) && s.procs[a.pid].pc.RemoveStale? && LockFile(s.procs[a.pid].key) in s.dir
  }

  ghost predicate Undisturbed(run: Run)
    requires run.Valid()
  {
    forall i :: 0 <= i < |run.actions| ==> !TakesLock(run.states[i], run.actions[i])
  }

  ghost predicate OwnsLock(s: State, p: Pid, key: Key) {
    HoldsKey(s, p, key) && InPlace(s, p)
  }

  /** Every holder, crashed ones included, has its lock in place, and every lock file has its holder. */
  ghost predicate Paired(s: State) {
    && (forall p :: p in s.procs && s.procs[p].Holds() ==> InPlace(s, p))
    && (forall key :: LockFile(key) in s.dir ==>
      s.dir[LockFile(key)].inode < |s.creations|
      && OwnsLock(s, s.creations[s.dir[LockFile(key)].inode].pid, key))
  }

  lemma PairedUnique(s: State, p: Pid, q: Pid, key: Key)
    requires Known(s) && Paired(s) && HoldsKey(s, p, key) && HoldsKey(s, q, key)
    ensures p == q && LockFile(key) in s.dir
  {
    assert HolderKnown(s, p) && HolderKnown(s, q);
    assert InPlace(s, p) && InPlace(s, q);
  }

  lemma InPlaceStep(s: State, a: Action, p: Pid)
    requires Known(s) && Enabled(s, a) && Paired(s) && !TakesLock(s, a)
    requires p in s.procs && Next(s, a).procs[p].Holds()
    ensures InPlace(Next(s, a), p)
  {
    HoldingKept(s, a, p);
    if s.procs[p].Holds() {
      assert InPlace(s, p);
      forall q | HoldsKey(s, q, s.procs[p].key)
        ensures q == p
      {
        PairedUnique(s, p, q, s.procs[p].key);
      }
      assert a.FileOp? && s.procs[a.pid].Holds() && s.procs[a.pid].key == s.procs[p].key ==>
        HoldsKey(s, a.pid, s.procs[p].key);
      LockKept(s, a, s.procs[p].key);
    }
  }

  lemma CreationsKept(s: State, a: Action)
    requires Enabled(s, a)
    ensures |s.creations| <= |Next(s, a).creations|
    ensures forall i :: 0 <= i < |s.creations| ==> Next(s, a).creations[i] == s.creations[i]
  {
  }

  lemma NewLockOwned(s: State, a: Action, key: Key)
    requires Enabled(s, a) && LockFile(key) !in s.dir && LockFile(key) in Next(s, a).dir
    ensures var s' := Next(s, a);
      s'.dir[LockFile(key)].inode < |s'.creations|
      && OwnsLock(s', s'.creations[s'.dir[LockFile(key)].inode].pid, key)
  {
  }

  lemma OwnedStep(s: State, a: Action, key: Key)
    requires Enabled(s, a) && Paired(s)
    requires LockFile(key) in Next(s, a).dir
    ensures var s' := Next(s, a);
      s'.dir[LockFile(key)].inode < |s'.creations|
      && OwnsLock(s', s'.creations[s'.dir[LockFile(key)].inode].pid, key)
  {
    if LockFile(key) !in s.dir {
      NewLockOwned(s, a, key);
    } else {
      CreationsKept(s, a);
      var owner := s.creations[s.dir[LockFile(key)].inode].pid;
      assert OwnsLock(s, owner, key);
      InPlaceKept(s, a, owner, key);
    }
  }

  lemma InPlaceKept(s: State, a: Action, owner: Pid, key: Key)
    requires Enabled(s, a) && OwnsLock(s, owner, key)
    requires LockFile(key) in Next(s, a).dir
    ensures OwnsLock(Next(s, a), owner, key)
    ensures Next(s, a).dir[LockFile(key)].inode == s.dir[LockFile(key)].inode
  {
  }

  lemma PairedStep(s: State, a: Action)
    requires Known(s) && Enabled(s, a) && Paired(s) && !TakesLock(s, a)
    ensures Paired(Next(s, a))
  {
    var s' := Next(s, a);
    forall p | p in s'.procs && s'.procs[p].Holds()
      ensures InPlace(s', p)
    {
      InPlaceStep(s, a, p);
    }
    forall key | LockFile(key) in s'.dir
      ensures s'.dir[LockFile(key)].inode < |s'.creations|
      ensures OwnsLock(s', s'.creations[s'.dir[LockFile(key)].inode].pid, key)
    {
      OwnedStep(s, a, key);
    }
  }

  lemma {:induction false} PairedAlways(run: Run, i: nat)
    requires run.Valid() && Undisturbed(run) && i < |run.states|
    ensures Paired(run.states[i])
  {
    if i > 0 {
      PairedAlways(run, i - 1);
      KnownAlways(run, i - 1);
      PairedStep(run.states[i - 1], run.actions[i - 1]);
    }
  }

  /** While no stale lock is removed, a key's lock file exists exactly when exactly one process holds the key. */
  lemma LockExistsIffHeld(run: Run, i: nat, key: Key)
    requires run.Valid() && Undisturbed(run) && i < |run.states|
    ensures var s := run.states[i];
      LockFile(key) in s.dir <==>
      exists p :: HoldsKey(s, p, key) && forall q :: HoldsKey(s, q, key) ==> q == p
  {
    var s := run.states[i];
    KnownAlways(run, i);
    PairedAlways(run, i);
    if LockFile(key) in s.dir {
      var p := s.creations[s.dir[LockFile(key)].inode].pid;
      assert OwnsLock(s, p, key);
      forall q | HoldsKey(s, q, key)
        ensures q == p
      {
        PairedUnique(s, p, q, key);
      }
    }
  }

  // ----- markers

  lemma MarkersStay(s: State, a: Action, key: Key)
    requires Enabled(s, a)
    ensures PublishedFile(key) in s.dir ==> PublishedFile(key) in Next(s, a).dir
    ensures UnknownFile(key) in s.dir ==> UnknownFile(key) in Next(s, a).dir
  {
  }

  /** A reservation attempt that has seen a marker, or has a check of that marker still before it. */
  ghost predicate BoundToFindMarker(s: State, p: Pid) {
    && p in s.procs
    && var proc := s.procs[p];
    && Marked(s.dir, proc.key)
    && (|| proc.pc.CheckPublished?
        || (proc.pc.CheckUnknown? && UnknownFile(proc.key) in s.dir)
        || proc.pc.RecheckPublished?
        || (proc.pc.RecheckUnknown? && UnknownFile(proc.key) in s.dir)
        || proc.pc == Finished(Found)
        || proc.pc == Finished(FoundUnknown))
  }

  /**
   * Marker permanence, in every run: a reservation attempt that begins after its key was committed or marked
   * unknown comes back with "published" or "unknown", never with a reservation, whatever the other processes do.
   */
  lemma {:induction false} MarkerPermanence(run: Run, p: Pid, begun: nat, i: nat)
    requires run.Valid() && begun < i < |run.states|
    requires run.actions[begun].Begin? && run.actions[begun].pid == p
    requires Marked(run.states[begun].dir, run.actions[begun].key)
    requires forall j :: begun < j < i ==> !(run.actions[j].Begin? && run.actions[j].pid == p)
    ensures BoundToFindMarker(run.states[i], p)
    ensures !run.states[i].procs[p].Holds()
  {
    MarkersStay(run.states[begun], run.actions[begun], run.actions[begun].key);
    ChecksFindMarker(run, p, begun + 1, i);
  }

  lemma BoundStep(s: State, a: Action, p: Pid)
    requires Enabled(s, a) && BoundToFindMarker(s, p) && !(a.Begin? && a.pid == p)
    ensures BoundToFindMarker(Next(s, a), p)
  {
    MarkersStay(s, a, s.procs[p].key);
  }

  /**
   * The same for a call that is under way, the checks after a failed creation included: once a marker is there and
   * its check is still to come, the call comes back with "published" or "unknown" and in no other way.
   */
  lemma {:induction false} ChecksFindMarker(run: Run, p: Pid, i: nat, j: nat)
    requires run.Valid() && i <= j < |run.states| && BoundToFindMarker(run.states[i], p)
    requires forall k :: i <= k < j ==> !(run.actions[k].Begin? && run.actions[k].pid == p)
    ensures BoundToFindMarker(run.states[j], p)
  {
    if i < j {
      ChecksFindMarker(run, p, i, j - 1);
      BoundStep(run.states[j - 1], run.actions[j - 1], p);
    }
  }

  /**
   * How a call leaves its look at the lock: refused exactly if the lock is there and young by the clock read before,
   * about to remove it exactly if it is there and not young, and back at its start if it is gone.
   */
  lemma StatLeadsOn(s: State, p: Pid)
    requires Enabled(s, FileOp(p)) && s.procs[p].pc.StatLock?
    ensures var proc, pc' := s.procs[p], Next(s, FileOp(p)).procs[p].pc;
      var lock := LockFile(proc.key);
      && (pc' == Finished(Contended) <==> lock in s.dir && proc.pc.clock - s.dir[lock].mtime < proc.staleAfter)
      && (pc'.RemoveStale? <==> lock in s.dir && proc.pc.clock - s.dir[lock].mtime >= proc.staleAfter)
      && (pc'.CheckPublished? <==> lock !in s.dir)
      && Next(s, FileOp(p)).dir == s.dir
  {
  }

  /** A process is told that the key is busy in no other way. */
  lemma OnlyYoungLocksRefuse(s: State, a: Action, p: Pid)
    requires Enabled(s, a) && p in s.procs && s.procs[p].pc != Finished(Contended)
    requires Next(s, a).procs[p].pc == Finished(Contended)
    ensures a == FileOp(p) && s.procs[p].pc.StatLock?
  {
  }

  ghost predicate ResultBacked(s: State, p: Pid)
    requires p in s.procs
  {
    var proc := s.procs[p];
    && (proc.pc in {Finished(Found), Finished(Committed)} ==> PublishedFile(proc.key) in s.dir)
    && (proc.pc in {Finished(FoundUnknown), Finished(MarkedUnknown)} ==> UnknownFile(proc.key) in s.dir)
  }

  /** In every run, a process is told "published" only with the published marker there, and "unknown" likewise. */
  lemma {:induction false} ResultsAreBacked(run: Run, i: nat)
    requires run.Valid() && i < |run.states|
    ensures forall p :: p in run.states[i].procs ==> ResultBacked(run.states[i], p)
  {
    if i > 0 {
      ResultsAreBacked(run, i - 1);
      var s, a := run.states[i - 1], run.actions[i - 1];
      forall p | p in run.states[i].procs
        ensures ResultBacked(run.states[i], p)
      {
        assert ResultBacked(s, p);
        MarkersStay(s, a, s.procs[p].key);
      }
    }
  }

  /** Every published marker stands for a confirmed publish call, and so does every confirmed outcome being settled. */
  ghost predicate PublishedConfirmed(s: State) {
    && (forall key :: PublishedFile(key) in s.dir ==> Confirmed(s.log, key))
    && (forall p :: p in s.procs && s.procs[p].pc.Settling? && s.procs[p].pc.outcome.Delivered? ==>
          Confirmed(s.log, s.procs[p].key))
  }

  lemma ConfirmedStays(s: State, a: Action, key: Key)
    requires Enabled(s, a)
    ensures Confirmed(s.log, key) ==> Confirmed(Next(s, a).log, key)
    ensures a.EndPublish? && a.outcome.Delivered? && s.procs[a.pid].key == key ==> Confirmed(Next(s, a).log, key)
  {
    var s' := Next(s, a);
    if s'.log != s.log {
      assert s'.log == s.log + [s'.log[|s.log|]];
      ConfirmedSnoc(s.log, s'.log[|s.log|], key);
    }
  }

  lemma PublishedMarkerAppears(s: State, a: Action, key: Key)
    requires Enabled(s, a) && PublishedFile(key) !in s.dir && PublishedFile(key) in Next(s, a).dir
    ensures a.FileOp? && s.procs[a.pid].key == key && s.procs[a.pid].pc.Settling? && s.procs[a.pid].pc.outcome.Delivered?
  {
  }

  lemma ConfirmedOutcomeAppears(s: State, a: Action, p: Pid)
    requires Enabled(s, a) && p in s.procs
    requires Next(s, a).procs[p].pc.Settling? && Next(s, a).procs[p].pc.outcome.Delivered?
    ensures Next(s, a).procs[p].key == s.procs[p].key
    ensures (s.procs[p].pc.Settling? && s.procs[p].pc.outcome.Delivered?)
      || (a.EndPublish? && a.pid == p && a.outcome.Delivered?)
  {
  }

  lemma PublishedConfirmedStep(s: State, a: Action)
    requires Enabled(s, a) && PublishedConfirmed(s)
    ensures PublishedConfirmed(Next(s, a))
  {
    var s' := Next(s, a);
    forall key | PublishedFile(key) in s'.dir
      ensures Confirmed(s'.log, key)
    {
      ConfirmedStays(s, a, key);
      if PublishedFile(key) !in s.dir {
        PublishedMarkerAppears(s, a, key);
      }
    }
    forall p | p in s'.procs && s'.procs[p].pc.Settling? && s'.procs[p].pc.outcome.Delivered?
      ensures Confirmed(s'.log, s'.procs[p].key)
    {
      ConfirmedOutcomeAppears(s, a, p);
      ConfirmedStays(s, a, s.procs[p].key);
    }
  }

  lemma {:induction false} PublishedConfirmedAlways(run: Run, i: nat)
    requires run.Valid() && i < |run.states|
    ensures PublishedConfirmed(run.states[i])
  {
    if i > 0 {
      PublishedConfirmedAlways(run, i - 1);
      PublishedConfirmedStep(run.states[i - 1], run.actions[i - 1]);
    }
  }

  /**
   * No false success, in every run, crashes and lost locks included: a process that is told "published", or whose
   * commit went through, has a publish call that was confirmed behind it, by whichever process.
   */
  lemma SuccessIsConfirmed(run: Run, i: nat, p: Pid)
    requires run.Valid() && i < |run.states| && p in run.states[i].procs
    requires run.states[i].procs[p].pc in {Finished(Found), Finished(Committed)}
    ensures Confirmed(run.states[i].log, run.states[i].procs[p].key)
  {
    ResultsAreBacked(run, i);
    PublishedConfirmedAlways(run, i);
    assert ResultBacked(run.states[i], p);
  }

  // ----- retries

  function RivalCreations(creations: seq<Creation>, key: Key, p: Pid): nat {
    if creations == [] then 0
    else
      var last := creations[|creations| - 1];
      RivalCreations(creations[..|creations| - 1], key, p) + if last.key == key && last.pid != p then 1 else 0
  }

  /** Lock creations for the process's key by others since its current call began. */
  ghost function Rivals(s: State, p: Pid): nat
    requires p in s.procs && s.procs[p].firstCreation <= |s.creations|
  {
    RivalCreations(s.creations[s.procs[p].firstCreation..], s.procs[p].key, p)
  }

  ghost predicate RetriesBounded(s: State, p: Pid)
    requires p in s.procs && HolderKnown(s, p)
  {
    var proc := s.procs[p];
    !proc.pc.Idle? ==>
      && proc.attempts <= 2 + Rivals(s, p)
      && (proc.pc.CheckPublished? || proc.pc.CheckUnknown? || proc.pc.CreateLock? ==>
            LockFile(proc.key) in s.dir ==> proc.attempts <= 1 + Rivals(s, p))
      && (proc.pc.RecheckPublished? || proc.pc.RecheckUnknown? || proc.pc.StatLock? || proc.pc.RemoveStale? ==>
            proc.attempts <= 1 + Rivals(s, p))
  }

  /** The lock that an action creates, if it creates one. */
  ghost predicate Creates(s: State, a: Action) {
    && a.FileOp? && Enabled(s, a) && s.procs[a.pid].pc.CreateLock?
    && LockFile(s.procs[a.pid].key) !in s.dir
  }

  lemma CreationsStep(s: State, a: Action)
    requires Enabled(s, a)
    ensures Next(s, a).creations == s.creations
      + if Creates(s, a) then [Creation(a.pid, s.procs[a.pid].key, s.now)] else []
  {
  }

  /** Until a process's next call, its key and where that call began do not change. */
  lemma CallKept(s: State, a: Action, p: Pid)
    requires Enabled(s, a) && p in s.procs && !(a.Begin? && a.pid == p)
    ensures Next(s, a).procs[p].key == s.procs[p].key
    ensures Next(s, a).procs[p].firstCreation == s.procs[p].firstCreation
  {
  }

  lemma RivalsOfSnoc(creations: seq<Creation>, last: Creation, first: nat, key: Key, p: Pid)
    requires first <= |creations|
    ensures RivalCreations((creations + [last])[first..], key, p)
      == RivalCreations(creations[first..], key, p) + if last.key == key && last.pid != p then 1 else 0
  {
    var more := (creations + [last])[first..];
    assert more[..|more| - 1] == creations[first..];
  }

  lemma RivalsStep(s: State, a: Action, p: Pid)
    requires Enabled(s, a) && p in s.procs && HolderKnown(s, p) && !s.procs[p].pc.Idle?
    requires !(a.Begin? && a.pid == p)
    ensures var s' := Next(s, a);
      && s'.procs[p].firstCreation == s.procs[p].firstCreation <= |s'.creations|
      && s'.procs[p].key == s.procs[p].key
      && Rivals(s', p) == Rivals(s, p)
        + if Creates(s, a) && a.pid != p && s.procs[a.pid].key == s.procs[p].key then 1 else 0
  {
    CallKept(s, a, p);
    CreationsStep(s, a);
    if Creates(s, a) {
      RivalsOfSnoc(s.creations, Creation(a.pid, s.procs[a.pid].key, s.now), s.procs[p].firstCreation, s.procs[p].key, p);
    }
  }

  lemma OwnOperationRetries(s: State, p: Pid)
    requires p in s.procs && s.procs[p].Operating() && HolderKnown(s, p) && RetriesBounded(s, p)
    requires HolderKnown(Operate(s, p), p) && Rivals(Operate(s, p), p) == Rivals(s, p)
    ensures RetriesBounded(Operate(s, p), p)
  {
  }

  lemma OtherActionRetries(s: State, a: Action, p: Pid)
    requires Enabled(s, a) && p in s.procs && !s.procs[p].pc.Idle? && HolderKnown(s, p) && RetriesBounded(s, p)
    requires a != FileOp(p) && !(a.Begin? && a.pid == p)
    requires HolderKnown(Next(s, a), p)
    requires var lock := LockFile(s.procs[p].key);
      Rivals(Next(s, a), p) >= Rivals(s, p) + if lock !in s.dir && lock in Next(s, a).dir then 1 else 0
    ensures RetriesBounded(Next(s, a), p)
  {
  }

  lemma RetriesStep(s: State, a: Action, p: Pid)
    requires Enabled(s, a) && p in s.procs && HolderKnown(s, p) && RetriesBounded(s, p)
    requires HolderKnown(Next(s, a), p)
    ensures RetriesBounded(Next(s, a), p)
  {
    if !s.procs[p].pc.Idle? && !(a.Begin? && a.pid == p) {
      RivalsStep(s, a, p);
      if a == FileOp(p) {
        OwnOperationRetries(s, p);
      } else {
        LockAppearsByCreation(s, a, s.procs[p].key);
        OtherActionRetries(s, a, p);
      }
    }
  }

  lemma LockAppearsByCreation(s: State, a: Action, key: Key)
    requires Enabled(s, a)
    ensures LockFile(key) !in s.dir && LockFile(key) in Next(s, a).dir ==> Creates(s, a) && s.procs[a.pid].key == key
  {
  }

  /**
   * Retry bound, in every run: a call of `reservePublication` makes at most two attempts plus one for every
   * lock that other processes have created for its key since it began; at most two when they create none.
   */
  lemma {:induction false} RetryBound(run: Run, i: nat, p: Pid)
    requires run.Valid() && i < |run.states| && p in run.states[i].procs
    ensures Known(run.states[i]) && RetriesBounded(run.states[i], p)
  {
    KnownAlways(run, i);
    if i > 0 {
      RetryBound(run, i - 1, p);
      KnownAlways(run, i - 1);
      RetriesStep(run.states[i - 1], run.actions[i - 1], p);
    }
  }

  /** The step sends the process's call back to its start. */
  ghost predicate Restarted(s: State, a: Action, p: Pid) {
    && a == FileOp(p) && Enabled(s, a)
    && (s.procs[p].pc.StatLock? || s.procs[p].pc.RemoveStale?)
    && Next(s, a).procs[p].pc.CheckPublished?
  }

  /** How often that has happened to process `p` after action `b` and before state `i`. */
  ghost function Restarts(run: Run, b: nat, i: nat, p: Pid): nat
    requires run.Valid() && b < i < |run.states|
    decreases i
  {
    if i == b + 1 then 0
    else Restarts(run, b, i - 1, p) + if Restarted(run.states[i - 1], run.actions[i - 1], p) then 1 else 0
  }

  /** Action `b` is the process's last call of `reservePublication` before state `i`. */
  ghost predicate LastCall(run: Run, b: nat, i: nat, p: Pid)
    requires run.Valid()
  {
    && b < i < |run.states| && run.actions[b].Begin? && run.actions[b].pid == p
    && forall j :: b < j < i ==> !(run.actions[j].Begin? && run.actions[j].pid == p)
  }

  lemma AttemptsStep(s: State, a: Action, p: Pid)
    requires Enabled(s, a) && p in s.procs && !(a.Begin? && a.pid == p)
    ensures Next(s, a).procs[p].attempts == s.procs[p].attempts + if Restarted(s, a, p) then 1 else 0
    ensures Next(s, a).procs[p].staleAfter == s.procs[p].staleAfter
  {
  }

  lemma CallToldStep(s: State, a: Action, s': State, p: Pid)
    requires Enabled(s, a) && s' == Next(s, a) && p in s.procs && !s.procs[p].pc.Idle? && !(a.Begin? && a.pid == p)
    ensures p in s'.procs && !s'.procs[p].pc.Idle?
    ensures var before, after := s.procs[p], s'.procs[p];
      && after.key == before.key && after.staleAfter == before.staleAfter
      && after.firstCreation == before.firstCreation
      && after.attempts == before.attempts + if Restarted(s, a, p) then 1 else 0
  {
    AttemptsStep(s, a, p);
    CallKept(s, a, p);
    NeverIdleAgain(s, a, p);
  }

  lemma {:induction false} CallTold(run: Run, b: nat, i: nat, p: Pid)
    requires run.Valid() && LastCall(run, b, i, p)
    ensures p in run.states[i].procs
    ensures var proc := run.states[i].procs[p];
      && proc.key == run.actions[b].key && proc.staleAfter == run.actions[b].staleAfter && !proc.pc.Idle?
      && proc.firstCreation == |run.states[b].creations|
      && proc.attempts == 1 + Restarts(run, b, i, p)
  {
    if i > b + 1 {
      CallTold(run, b, i - 1, p);
      CallToldStep(run.states[i - 1], run.actions[i - 1], run.states[i], p);
    } else {
      assert run.states[i] == Next(run.states[b], run.actions[b]);
    }
  }

  lemma NeverIdleAgain(s: State, a: Action, p: Pid)
    requires Enabled(s, a) && p in s.procs && !s.procs[p].pc.Idle?
    ensures !Next(s, a).procs[p].pc.Idle?
  {
  }

  /**
   * The same in terms of the run alone: since a process's last call, it has started over at most once more often
   * than other processes have created a lock for its key.
   */
  lemma RestartsBounded(run: Run, b: nat, i: nat, p: Pid)
    requires run.Valid() && LastCall(run, b, i, p)
    ensures |run.states[b].creations| <= |run.states[i].creations|
    ensures Restarts(run, b, i, p)
      <= 1 + RivalCreations(run.states[i].creations[|run.states[b].creations|..], run.actions[b].key, p)
  {
    CallTold(run, b, i, p);
    RetryBound(run, i, p);
    assert HolderKnown(run.states[i], p);
  }

  /** Writing the lock sets its modification time, wherever the file has been moved, and no other file's. */
  lemma WritingRefreshesLock(s: State, p: Pid)
    requires Enabled(s, FileOp(p)) && s.procs[p].pc.WriteLock?
    ensures Next(s, FileOp(p)).dir.Keys == s.dir.Keys
    ensures forall path :: path in s.dir ==>
      Next(s, FileOp(p)).dir[path] ==
        if s.dir[path].inode == s.procs[p].pc.inode then File(s.now, s.dir[path].inode) else s.dir[path]
  {
  }
}
