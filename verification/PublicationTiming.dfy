/** Why the locks of live processes do not go stale, and when one is deleted all the same. */
module PublicationTiming {
  import opened PublicationFiles
  import opened PublishLog
  import opened PublicationProtocol
  import opened PublicationSafety
  import opened PublicationOnce

  /**
   * Every reservation's stale age is at least twice the publish timeout; a live holder has spent at most one
   * timeout in its publish call, which settles by then, and less than one outside it.
   */
  ghost predicate Punctual(s: State, timeout: int) {
    forall p :: p in s.procs && !s.procs[p].pc.Idle? ==>
      && s.procs[p].staleAfter >= 2 * timeout
      && (s.procs[p].alive && s.procs[p].Holds() ==> s.procs[p].inside <= timeout && s.procs[p].outside < timeout)
  }

  ghost predicate PunctualRun(run: Run, timeout: int)
    requires run.Valid()
  {
    forall i :: 0 <= i < |run.states| ==> Punctual(run.states[i], timeout)
  }

  lemma TimeStep(s: State, a: Action, p: Pid)
    requires Enabled(s, a) && p in s.procs && s.procs[p].Holds() && (a.Tick? || a.pid != p)
    ensures var before, after, elapsed := s.procs[p], Next(s, a).procs[p], Next(s, a).now - s.now;
      && after.pc == before.pc
      && after.inside == before.inside + (if before.pc.Publishing? then elapsed else 0)
      && after.outside == before.outside + (if before.pc.Publishing? then 0 else elapsed)
  {
  }

  /** While a holder takes no step, time goes by inside its publish call if it is in one, and outside otherwise. */
  lemma {:induction false} TimeSpent(run: Run, i: nat, j: nat, p: Pid)
    requires run.Valid() && i <= j < |run.states| && p in run.states[i].procs && run.states[i].procs[p].Holds()
    requires forall k :: i <= k < j ==> run.actions[k].Tick? || run.actions[k].pid != p
    ensures p in run.states[j].procs
    ensures var before, after := run.states[i].procs[p], run.states[j].procs[p];
      var elapsed := run.states[j].now - run.states[i].now;
      && after.pc == before.pc
      && after.inside == before.inside + (if before.pc.Publishing? then elapsed else 0)
      && after.outside == before.outside + (if before.pc.Publishing? then 0 else elapsed)
  {
    if i < j {
      TimeSpent(run, i, j - 1, p);
      TimeStep(run.states[j - 1], run.actions[j - 1], p);
    }
  }

  // ----- runs with crashes

  /** The file that a process is about to remove as stale is that old. */
  ghost predicate SeenStale(s: State, p: Pid)
    requires p in s.procs
  {
    var proc := s.procs[p];
    proc.pc.RemoveStale? ==>
      proc.pc.seen < |s.creations| && s.now - s.creations[proc.pc.seen].at >= proc.staleAfter
  }

  lemma SeenStaleStep(s: State, a: Action, p: Pid)
    requires Known(s) && Enabled(s, a) && p in s.procs && SeenStale(s, p)
    ensures SeenStale(Next(s, a), p)
  {
    assert HolderKnown(s, p);
    CreationsKept(s, a);
    if Next(s, a).procs[p].pc.RemoveStale? && !s.procs[p].pc.RemoveStale? {
      RemovalFollowsStat(s, a, p);
      assert FileKnown(s, LockFile(s.procs[p].key));
    }
  }

  lemma {:induction false} SeenStaleAlways(run: Run, i: nat)
    requires run.Valid() && i < |run.states|
    ensures forall p :: p in run.states[i].procs ==> SeenStale(run.states[i], p)
  {
    if i > 0 {
      SeenStaleAlways(run, i - 1);
      KnownAlways(run, i - 1);
      forall p | p in run.states[i].procs
        ensures SeenStale(run.states[i], p)
      {
        SeenStaleStep(run.states[i - 1], run.actions[i - 1], p);
      }
    }
  }

  /** The stale-lock removal (publication-state.ts:53) deletes a lock file other than the one found stale. */
  ghost predicate DeletesUnseen(s: State, a: Action) {
    && a.FileOp? && Enabled(s, a) && s.procs[a.pid].pc.RemoveStale?
    && var lock := LockFile(s.procs[a.pid].key);
    && lock in s.dir && s.dir[lock].inode != s.procs[a.pid].pc.seen
  }

  /** The process that created the file is running and still holds the reservation it created it for. */
  ghost predicate CreatorHolds(s: State, inode: nat)
    requires inode < |s.creations|
  {
    var p := s.creations[inode].pid;
    p in s.procs && s.procs[p].alive && s.procs[p].Holds() && s.procs[p].pc.inode == inode
  }

  /** A removal whose own two file operations disagree, and that hits a reservation in use. */
  ghost predicate DeletesUnseenInUse(s: State, a: Action) {
    && DeletesUnseen(s, a)
    && var inode := s.dir[LockFile(s.procs[a.pid].key)].inode;
    && inode < |s.creations| && CreatorHolds(s, inode)
  }

  /**
   * In a run whose live holders are punctual, crashes allowed, a stale-lock removal takes a live process's lock
   * exactly when the file it deletes is not the one it found stale and that file's creator still holds with it.
   */
  lemma TakesLiveLockExactly(run: Run, timeout: int, i: nat)
    requires run.Valid() && PunctualRun(run, timeout) && i < |run.actions|
    ensures TakesLiveLock(run.states[i], run.actions[i]) <==> DeletesUnseenInUse(run.states[i], run.actions[i])
  {
    var s, a := run.states[i], run.actions[i];
    KnownAlways(run, i);
    SeenStaleAlways(run, i);
    if TakesLiveLock(s, a) {
      var p :| HoldsKey(s, p, s.procs[a.pid].key) && s.procs[p].alive && InPlace(s, p);
      assert HolderKnown(s, p) && SeenStale(s, a.pid);
    }
    if DeletesUnseenInUse(s, a) {
      var p := s.creations[s.dir[LockFile(s.procs[a.pid].key)].inode].pid;
      assert HolderKnown(s, p);
      assert HoldsKey(s, p, s.procs[a.pid].key) && InPlace(s, p);
    }
  }

  /** Live reservations keep their locks throughout exactly when no removal deletes an unseen lock in use. */
  lemma PunctualLocksKeptExactly(run: Run, timeout: int)
    requires run.Valid() && PunctualRun(run, timeout)
    ensures (forall i :: 0 <= i < |run.states| ==> LiveLocksInPlace(run.states[i])) <==>
      forall i :: 0 <= i < |run.actions| ==> !DeletesUnseenInUse(run.states[i], run.actions[i])
  {
    LocksKeptExactly(run);
    forall i | 0 <= i < |run.actions|
      ensures TakesLiveLock(run.states[i], run.actions[i]) <==> DeletesUnseenInUse(run.states[i], run.actions[i])
    {
      TakesLiveLockExactly(run, timeout, i);
    }
  }

  /** Every removal deletes the very file it found stale, or nothing. */
  ghost predicate RemovesOnlySeen(run: Run)
    requires run.Valid()
  {
    forall i :: 0 <= i < |run.actions| ==> !DeletesUnseen(run.states[i], run.actions[i])
  }

  /**
   * Were line 53 to remove only the file that line 45 looked at, punctual holders, crashes allowed, would never
   * lose a lock, and no two live processes would hold one key.
   */
  lemma SeenRemovalsSpareTheLiving(run: Run, timeout: int)
    requires run.Valid() && PunctualRun(run, timeout) && RemovesOnlySeen(run)
    ensures RemovalsSpareTheLiving(run)
    ensures forall i :: 0 <= i < |run.states| ==> MutualExclusion(run.states[i])
  {
    forall i | 0 <= i < |run.actions|
      ensures !TakesLiveLock(run.states[i], run.actions[i])
    {
      TakesLiveLockExactly(run, timeout, i);
    }
    forall i | 0 <= i < |run.states|
      ensures MutualExclusion(run.states[i])
    {
      MutualExclusionAlways(run, i);
    }
  }

  // ----- runs without crashes

  ghost predicate CrashFree(run: Run)
    requires run.Valid()
  {
    forall i :: 0 <= i < |run.states| ==> AllAlive(run.states[i])
  }

  ghost predicate AllAlive(s: State) {
    forall p :: p in s.procs ==> s.procs[p].alive
  }

  ghost predicate NoneRemoves(s: State) {
    forall p :: p in s.procs ==> !s.procs[p].pc.RemoveStale?
  }

  lemma LockLooksFresh(s: State, p: Pid, timeout: int)
    requires Known(s) && Paired(s) && Punctual(s, timeout) && AllAlive(s)
    requires p in s.procs && s.procs[p].pc.StatLock? && LockFile(s.procs[p].key) in s.dir
    ensures s.procs[p].pc.clock - s.dir[LockFile(s.procs[p].key)].mtime < s.procs[p].staleAfter
  {
    var lock := LockFile(s.procs[p].key);
    var owner := s.creations[s.dir[lock].inode].pid;
    assert OwnsLock(s, owner, s.procs[p].key);
    assert HolderKnown(s, owner) && HolderKnown(s, p) && FileKnown(s, lock);
  }

  lemma RemovalFollowsStat(s: State, a: Action, p: Pid)
    requires Enabled(s, a) && p in s.procs && Next(s, a).procs[p].pc.RemoveStale? && !s.procs[p].pc.RemoveStale?
    ensures a == FileOp(p) && s.procs[p].pc.StatLock? && LockFile(s.procs[p].key) in s.dir
    ensures s.procs[p].pc.clock - s.dir[LockFile(s.procs[p].key)].mtime >= s.procs[p].staleAfter
    ensures Next(s, a).procs[p].pc.seen == s.dir[LockFile(s.procs[p].key)].inode
  {
  }

  lemma NoneRemovesStep(s: State, a: Action, timeout: int)
    requires Known(s) && Paired(s) && Punctual(s, timeout) && AllAlive(s) && NoneRemoves(s) && Enabled(s, a)
    ensures NoneRemoves(Next(s, a))
  {
    forall p | p in s.procs
      ensures !Next(s, a).procs[p].pc.RemoveStale?
    {
      if Next(s, a).procs[p].pc.RemoveStale? {
        RemovalFollowsStat(s, a, p);
        LockLooksFresh(s, p, timeout);
      }
    }
  }

  lemma {:induction false} PunctualNoneRemoves(run: Run, timeout: int, i: nat)
    requires run.Valid() && PunctualRun(run, timeout) && CrashFree(run) && i < |run.states|
    ensures Paired(run.states[i]) && NoneRemoves(run.states[i])
  {
    if i > 0 {
      PunctualNoneRemoves(run, timeout, i - 1);
      KnownAlways(run, i - 1);
      NoneRemovesStep(run.states[i - 1], run.actions[i - 1], timeout);
      PairedStep(run.states[i - 1], run.actions[i - 1]);
    }
  }

  lemma PairedExcludes(s: State)
    requires Known(s) && Paired(s)
    ensures MutualExclusion(s)
  {
    InPlaceExcludes(s);
  }

  /**
   * Timed safety: in a crash-free run whose holders are punctual, no process ever finds a lock stale, so no lock
   * is ever removed and no two processes hold one key.
   */
  lemma PunctualRunsAreUndisturbed(run: Run, timeout: int)
    requires run.Valid() && PunctualRun(run, timeout) && CrashFree(run)
    ensures Undisturbed(run)
    ensures forall i :: 0 <= i < |run.states| ==> NoneRemoves(run.states[i]) && MutualExclusion(run.states[i])
  {
    forall i | 0 <= i < |run.states|
      ensures NoneRemoves(run.states[i]) && MutualExclusion(run.states[i])
    {
      PunctualNoneRemoves(run, timeout, i);
      KnownAlways(run, i);
      PairedExcludes(run.states[i]);
    }
    assert forall i :: 0 <= i < |run.actions| ==> NoneRemoves(run.states[i]);
  }

  /** Altogether: a crash-free punctual run publishes at most once per key exactly if it never starts over a marker. */
  lemma PunctualAtMostOnce(run: Run, timeout: int)
    requires run.Valid() && PunctualRun(run, timeout) && CrashFree(run)
    ensures PublishesAtMostOnce(run) <==> UnmarkedStarts(run)
  {
    PunctualRunsAreUndisturbed(run, timeout);
    AtMostOnceUndisturbed(run);
  }

  /** Every lock file is younger than the stale age of every process that has made a call. */
  ghost predicate LocksYoung(s: State) {
    forall p, key :: p in s.procs && !s.procs[p].pc.Idle? && LockFile(key) in s.dir ==>
      s.now - s.dir[LockFile(key)].mtime < s.procs[p].staleAfter
  }

  lemma YoungStep(s: State, a: Action)
    requires Known(s) && LocksYoung(s) && NoneRemoves(s) && Enabled(s, a)
    ensures NoneRemoves(Next(s, a))
  {
    forall p | p in s.procs
      ensures !Next(s, a).procs[p].pc.RemoveStale?
    {
      assert HolderKnown(s, p);
      if Next(s, a).procs[p].pc.RemoveStale? {
        RemovalFollowsStat(s, a, p);
      }
    }
  }

  lemma {:induction false} YoungNoneRemoves(run: Run, i: nat)
    requires run.Valid() && i < |run.states|
    requires forall j :: 0 <= j < i ==> LocksYoung(run.states[j])
    ensures NoneRemoves(run.states[i])
  {
    if i > 0 {
      YoungNoneRemoves(run, i - 1);
      KnownAlways(run, i - 1);
      YoungStep(run.states[i - 1], run.actions[i - 1]);
    }
  }

  /** While no lock's age reaches the stale age, crashes or not, a run is undisturbed. */
  lemma YoungRunsAreUndisturbed(run: Run)
    requires run.Valid() && forall i :: 0 <= i < |run.states| ==> LocksYoung(run.states[i])
    ensures Undisturbed(run)
  {
    forall i | 0 <= i < |run.actions|
      ensures !TakesLock(run.states[i], run.actions[i])
    {
      YoungNoneRemoves(run, i);
    }
  }
}
