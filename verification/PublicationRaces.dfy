/** Runs that show which guarantees the state directory does not give, and why. */
module PublicationRaces {
  import opened PublicationFiles
  import opened PublishLog
  import opened PublicationProtocol
  import opened PublicationSafety
  import opened PublicationOnce
  import opened PublicationTiming
  import opened PublicationAlone

  const SOME_KEY := Key("channel\0event")
  const STALE_AFTER := 2

  function Last(run: Run): State
    requires run.states != []
  {
    run.states[|run.states| - 1]
  }

  // ----- pieces of runs

  /** Punctual for a publish timeout of 1, deleting only files found stale, and never starting over a marker. */
  ghost predicate Orderly(run: Run)
    requires run.Valid()
  {
    PunctualRun(run, 1) && RemovesOnlySeen(run) && UnmarkedStarts(run)
  }

  ghost predicate OrderlyStep(s: State, a: Action)
    requires Enabled(s, a)
  {
    !DeletesUnseen(s, a) && (a.StartPublish? ==> !Marked(s.dir, s.procs[a.pid].key))
  }

  /** One more action of a run, leading to `s`. */
  lemma Go(run: Run, a: Action, s: State) returns (longer: Run)
    requires run.Valid() && Enabled(Last(run), a) && s == Next(Last(run), a) && Punctual(s, 1)
    ensures longer.Valid() && Last(longer) == s
    ensures PunctualRun(run, 1) ==> PunctualRun(longer, 1)
    ensures Orderly(run) && OrderlyStep(Last(run), a) ==> Orderly(longer)
    ensures CrashFree(run) && AllAlive(s) ==> CrashFree(longer)
  {
    longer := Run(run.states + [s], run.actions + [a]);
  }

  function Fresh(processes: set<Pid>): State {
    State(map[], map p | p in processes :: Process(SOME_KEY, 0, Idle, true, 0, 0, 0, 0), 0, [], [])
  }

  lemma Start(processes: set<Pid>) returns (run: Run)
    ensures run.Valid() && Last(run) == Fresh(processes)
    ensures Orderly(run) && CrashFree(run)
  {
    run := Run([Fresh(processes)], []);
  }

  function Called(s: State, p: Pid, pc: Pc): State {
    s.(procs := s.procs[p := Process(SOME_KEY, STALE_AFTER, pc, true, 1, |s.creations|, 0, 0)])
  }

  /** The moves of a call that do not touch the directory. */
  predicate CallMoves(s: State, from: Pc, to: Pc) {
    var lock := LockFile(SOME_KEY);
    match from
    case CheckPublished => to.CheckUnknown? && PublishedFile(SOME_KEY) !in s.dir
    case CheckUnknown => to.CreateLock? && UnknownFile(SOME_KEY) !in s.dir
    case CreateLock => to.RecheckPublished? && lock in s.dir
    case RecheckPublished => to.RecheckUnknown? && PublishedFile(SOME_KEY) !in s.dir
    case RecheckUnknown => to == StatLock(s.now) && UnknownFile(SOME_KEY) !in s.dir
    case StatLock(clock) =>
      lock in s.dir && clock - s.dir[lock].mtime >= STALE_AFTER && to == RemoveStale(s.dir[lock].inode)
    case _ => false
  }

  lemma Advance(run: Run, s: State, p: Pid, from: Pc, to: Pc) returns (longer: Run)
    requires run.Valid() && PunctualRun(run, 1) && Last(run) == Called(s, p, from)
    requires CallMoves(s, from, to)
    ensures longer.Valid() && PunctualRun(longer, 1) && Last(longer) == Called(s, p, to)
    ensures Orderly(run) ==> Orderly(longer)
    ensures CrashFree(run) ==> CrashFree(longer)
  {
    assert Punctual(Last(run), 1) && (CrashFree(run) ==> AllAlive(Last(run)));
    assert Called(s, p, to) == GoTo(Last(run), p, to);
    longer := Go(run, FileOp(p), Called(s, p, to));
  }

  /** An idle process calls `reservePublication` and gets past both marker checks. */
  lemma PassMarkerChecks(run: Run, p: Pid) returns (longer: Run)
    requires run.Valid() && PunctualRun(run, 1) && p in Last(run).procs && !Marked(Last(run).dir, SOME_KEY)
    requires Last(run).procs[p].alive && Last(run).procs[p].pc.Idle?
    ensures longer.Valid() && PunctualRun(longer, 1) && Last(longer) == Called(Last(run), p, CreateLock)
    ensures Orderly(run) ==> Orderly(longer)
    ensures CrashFree(run) ==> CrashFree(longer)
  {
    var s := Last(run);
    assert Punctual(s, 1) && (CrashFree(run) ==> AllAlive(s));
    longer := Go(run, Begin(p, SOME_KEY, STALE_AFTER), Called(s, p, CheckPublished));
    longer := Advance(longer, s, p, CheckPublished, CheckUnknown);
    longer := Advance(longer, s, p, CheckUnknown, CreateLock);
  }

  /** From an idle process to one about to delete a lock it found stale. */
  lemma FindStale(run: Run, p: Pid) returns (longer: Run)
    requires run.Valid() && PunctualRun(run, 1) && p in Last(run).procs && !Marked(Last(run).dir, SOME_KEY)
    requires Last(run).procs[p].alive && Last(run).procs[p].pc.Idle?
    requires LockFile(SOME_KEY) in Last(run).dir
    requires Last(run).now - Last(run).dir[LockFile(SOME_KEY)].mtime >= STALE_AFTER
    ensures longer.Valid() && PunctualRun(longer, 1)
    ensures Last(longer) == Called(Last(run), p, RemoveStale(Last(run).dir[LockFile(SOME_KEY)].inode))
    ensures Orderly(run) ==> Orderly(longer)
  {
    var s := Last(run);
    longer := PassMarkerChecks(run, p);
    longer := Advance(longer, s, p, CreateLock, RecheckPublished);
    longer := Advance(longer, s, p, RecheckPublished, RecheckUnknown);
    longer := Advance(longer, s, p, RecheckUnknown, StatLock(s.now));
    longer := Advance(longer, s, p, StatLock(s.now), RemoveStale(s.dir[LockFile(SOME_KEY)].inode));
  }

  /** A process in a call of `reservePublication` for the key that has not got hold of it so far. */
  predicate Calling(s: State, p: Pid) {
    && p in s.procs && s.procs[p].alive && s.procs[p].Operating() && !s.procs[p].Holds()
    && s.procs[p].key == SOME_KEY && s.procs[p].staleAfter >= STALE_AFTER
    && s.procs[p].inside == s.procs[p].outside == 0
  }

  function Created(s: State, p: Pid, pc: Pc): State
    requires p in s.procs
  {
    GoTo(s, p, pc).(
      dir := s.dir[LockFile(SOME_KEY) := File(s.now, |s.creations|)],
      creations := s.creations + [Creation(p, SOME_KEY, s.now)])
  }

  lemma Create(run: Run, p: Pid) returns (longer: Run)
    requires run.Valid() && PunctualRun(run, 1) && Calling(Last(run), p) && Last(run).procs[p].pc.CreateLock?
    requires LockFile(SOME_KEY) !in Last(run).dir
    ensures longer.Valid() && PunctualRun(longer, 1)
    ensures Last(longer) == Created(Last(run), p, WriteLock(|Last(run).creations|))
    ensures Orderly(run) ==> Orderly(longer)
    ensures CrashFree(run) ==> CrashFree(longer)
  {
    assert Punctual(Last(run), 1) && (CrashFree(run) ==> AllAlive(Last(run)));
    longer := Go(run, FileOp(p), Created(Last(run), p, WriteLock(|Last(run).creations|)));
  }

  lemma Write(run: Run, p: Pid) returns (longer: Run)
    requires run.Valid() && PunctualRun(run, 1)
    requires p in Last(run).procs && Last(run).procs[p].alive && Last(run).procs[p].pc.WriteLock?
    requires Touched(Last(run).dir, Last(run).procs[p].pc.inode, Last(run).now) == Last(run).dir
    ensures longer.Valid() && PunctualRun(longer, 1)
    ensures Last(longer) == GoTo(Last(run), p, Holding(Last(run).procs[p].pc.inode))
    ensures Orderly(run) ==> Orderly(longer)
    ensures CrashFree(run) ==> CrashFree(longer)
  {
    assert Punctual(Last(run), 1) && (CrashFree(run) ==> AllAlive(Last(run)));
    longer := Go(run, FileOp(p), GoTo(Last(run), p, Holding(Last(run).procs[p].pc.inode)));
  }

  /** The process creates the lock, writes it, and returns with the reservation. */
  lemma CreateAndWrite(run: Run, p: Pid) returns (longer: Run)
    requires run.Valid() && PunctualRun(run, 1) && Calling(Last(run), p) && Last(run).procs[p].pc.CreateLock?
    requires LockFile(SOME_KEY) !in Last(run).dir
    ensures longer.Valid() && PunctualRun(longer, 1)
    ensures Last(longer) == Created(Last(run), p, Holding(|Last(run).creations|))
    ensures Orderly(run) ==> Orderly(longer)
    ensures CrashFree(run) ==> CrashFree(longer)
  {
    var s := Last(run);
    longer := Create(run, p);
    assert Touched(Last(longer).dir, |s.creations|, s.now) == Last(longer).dir by {
      KnownAlways(run, |run.states| - 1);
      FreshInode(s, LockFile(SOME_KEY));
    }
    longer := Write(longer, p);
    assert Last(longer) == Created(s, p, Holding(|s.creations|));
  }

  function Publishes(s: State, p: Pid): State
    requires p in s.procs && s.procs[p].pc.Holding?
  {
    GoTo(s, p, Publishing(s.procs[p].pc.inode)).(log := s.log + [Started(p, s.procs[p].key)])
  }

  lemma Publish(run: Run, p: Pid) returns (longer: Run)
    requires run.Valid() && PunctualRun(run, 1)
    requires p in Last(run).procs && Last(run).procs[p].alive && Last(run).procs[p].pc.Holding?
    ensures longer.Valid() && PunctualRun(longer, 1) && Last(longer) == Publishes(Last(run), p)
    ensures Orderly(run) && !Marked(Last(run).dir, Last(run).procs[p].key) ==> Orderly(longer)
    ensures CrashFree(run) ==> CrashFree(longer)
  {
    assert Punctual(Last(run), 1) && (CrashFree(run) ==> AllAlive(Last(run)));
    longer := Go(run, StartPublish(p), Publishes(Last(run), p));
  }

  lemma CountTwo(log: seq<Call>)
    requires (exists p, q :: log == [Started(p, SOME_KEY), Started(q, SOME_KEY)])
      || log == [Started(1, SOME_KEY), Ended(1, SOME_KEY, Delivered("id")), Started(2, SOME_KEY)]
    ensures PossiblyDelivered(log, SOME_KEY) == 2
  {
    var n := |log| - 1;
    assert log[..1] == [] + [log[0]] && log == log[..n] + [log[n]];
    CountsOfSnoc([], log[0], SOME_KEY);
    CountsOfSnoc(log[..n], log[n], SOME_KEY);
    if n == 2 {
      assert log[..2] == log[..1] + [log[1]];
      CountsOfSnoc(log[..1], log[1], SOME_KEY);
    }
  }

  lemma PublishedTwice(run: Run)
    requires run.states != [] && PossiblyDelivered(Last(run).log, SOME_KEY) == 2
    ensures !PublishesAtMostOnce(run)
  {
    assert !(PossiblyDelivered(run.states[|run.states| - 1].log, SOME_KEY) <= 1);
  }

  // ----- markers checked too early

  /** Its publish call confirmed, process 1 commits. */
  lemma Commit(run: Run) returns (longer: Run)
    requires run.Valid() && PunctualRun(run, 1) && CrashFree(run)
    requires 1 in Last(run).procs && Last(run).procs[1].pc.Publishing? && Last(run).procs[1].key == SOME_KEY
    requires Last(run).dir.Keys == {LockFile(SOME_KEY)}
    ensures longer.Valid() && PunctualRun(longer, 1) && CrashFree(longer)
    ensures Last(longer).procs == Last(run).procs[1 := Last(run).procs[1].(pc := Finished(Committed))]
    ensures Last(longer).dir.Keys == {PublishedFile(SOME_KEY)}
    ensures Last(longer).log == Last(run).log + [Ended(1, SOME_KEY, Delivered("id"))]
  {
    var s := Last(run);
    assert Punctual(s, 1) && AllAlive(s);
    var s1 := GoTo(s, 1, Settling(s.procs[1].pc.inode, Delivered("id"))).(
      log := s.log + [Ended(1, SOME_KEY, Delivered("id"))]);
    longer := Go(run, EndPublish(1, Delivered("id")), s1);
    longer := Go(longer, FileOp(1),
      GoTo(s1, 1, Finished(Committed)).(dir := Renamed(s1.dir, LockFile(SOME_KEY), PublishedFile(SOME_KEY))));
  }

  lemma SecondIsLate() returns (run: Run)
    ensures run.Valid() && PunctualRun(run, 1) && CrashFree(run)
    ensures Calling(Last(run), 2) && Last(run).procs[2].pc.CreateLock?
    ensures Last(run).dir.Keys == {PublishedFile(SOME_KEY)}
    ensures Last(run).log == [Started(1, SOME_KEY), Ended(1, SOME_KEY, Delivered("id"))]
  {
    run := Start({1, 2});
    run := PassMarkerChecks(run, 1);
    run := PassMarkerChecks(run, 2);
    run := CreateAndWrite(run, 1);
    run := Publish(run, 1);
    run := Commit(run);
  }

  /**
   * Two processes, nothing stale, nobody crashed, everybody punctual, and the reply is published twice: the
   * second process checked the markers before the first reserved, and creates its lock after the first committed.
   */
  lemma MarkerCheckRace() returns (run: Run)
    ensures run.Valid() && Undisturbed(run) && PunctualRun(run, 1) && CrashFree(run)
    ensures !PublishesAtMostOnce(run) && !UnmarkedStarts(run)
  {
    run := SecondIsLate();
    run := CreateAndWrite(run, 2);
    run := Publish(run, 2);
    CountTwo(Last(run).log);
    PublishedTwice(run);
    PunctualRunsAreUndisturbed(run, 1);
    PunctualAtMostOnce(run, 1);
  }

  // ----- crashes

  lemma Crashes(run: Run, p: Pid) returns (longer: Run)
    requires run.Valid() && PunctualRun(run, 1) && p in Last(run).procs && Last(run).procs[p].alive
    ensures longer.Valid() && PunctualRun(longer, 1)
    ensures Last(longer) == Last(run).(procs := Last(run).procs[p := Last(run).procs[p].(alive := false)])
    ensures Orderly(run) ==> Orderly(longer)
  {
    assert Punctual(Last(run), 1);
    longer := Go(run, Crash(p), Last(run).(procs := Last(run).procs[p := Last(run).procs[p].(alive := false)]));
  }

  lemma Wait(run: Run, elapsed: nat) returns (longer: Run)
    requires run.Valid() && PunctualRun(run, 1)
    requires forall p :: p in Last(run).procs ==> Last(run).procs[p].pc.Idle? || !Last(run).procs[p].alive
    ensures longer.Valid() && PunctualRun(longer, 1)
    ensures Last(longer) == Last(run).(
      now := Last(run).now + elapsed, procs := map p | p in Last(run).procs :: Aged(Last(run).procs[p], elapsed))
    ensures Orderly(run) ==> Orderly(longer)
  {
    assert Punctual(Last(run), 1);
    longer := Go(run, Tick(elapsed), Next(Last(run), Tick(elapsed)));
  }

  lemma Holder() returns (run: Run)
    ensures run.Valid() && Orderly(run)
    ensures Last(run).procs.Keys == {1, 2, 3}
    ensures Last(run).procs[1] == Process(SOME_KEY, STALE_AFTER, Holding(0), true, 1, 0, 0, 0)
    ensures forall p :: p in {2, 3} ==> Last(run).procs[p] == Process(SOME_KEY, 0, Idle, true, 0, 0, 0, 0)
    ensures Last(run).dir == map[LockFile(SOME_KEY) := File(0, 0)] && Last(run).now == 0 && Last(run).log == []
  {
    run := Start({1, 2, 3});
    run := PassMarkerChecks(run, 1);
    run := CreateAndWrite(run, 1);
  }

  /** Process 1 crashed with the lock, before or after it called publish. */
  lemma CrashedHolder(launched: bool) returns (run: Run)
    ensures run.Valid() && Orderly(run)
    ensures Last(run).procs.Keys == {1, 2, 3} && !Last(run).procs[1].alive && Last(run).procs[1].key == SOME_KEY
    ensures Last(run).procs[1].pc == if launched then Publishing(0) else Holding(0)
    ensures forall p :: p in {2, 3} ==> Last(run).procs[p] == Process(SOME_KEY, 0, Idle, true, 0, 0, 0, 0)
    ensures Last(run).dir == map[LockFile(SOME_KEY) := File(0, 0)] && Last(run).now == 0
    ensures Last(run).log == if launched then [Started(1, SOME_KEY)] else []
  {
    run := Holder();
    if launched {
      run := Publish(run, 1);
    }
    run := Crashes(run, 1);
  }

  /** The lock has gone stale. */
  lemma AbandonedLock(launched: bool) returns (run: Run)
    ensures run.Valid() && Orderly(run)
    ensures Last(run).procs.Keys == {1, 2, 3}
    ensures forall p :: p in {2, 3} ==> Last(run).procs[p] == Process(SOME_KEY, 0, Idle, true, 0, 0, 0, 0)
    ensures Last(run).dir == map[LockFile(SOME_KEY) := File(0, 0)] && Last(run).now == STALE_AFTER
    ensures Last(run).log == if launched then [Started(1, SOME_KEY)] else []
    ensures Abandoned(Last(run), SOME_KEY) <==> launched
  {
    run := CrashedHolder(launched);
    run := Wait(run, STALE_AFTER);
    assert 1 in Launchers(Last(run), SOME_KEY) <==> launched;
  }

  /** Nothing in the directory says whether a crashed holder had called publish. */
  lemma CrashHidesTheCall() returns (quiet: Run, launched: Run)
    ensures quiet.Valid() && Orderly(quiet) && launched.Valid() && Orderly(launched)
    ensures Last(quiet).dir == Last(launched).dir && Last(quiet).now == Last(launched).now
    ensures PossiblyDelivered(Last(quiet).log, SOME_KEY) == 0 && PossiblyDelivered(Last(launched).log, SOME_KEY) == 1
  {
    quiet := AbandonedLock(false);
    launched := AbandonedLock(true);
    CountsOfSnoc([], Started(1, SOME_KEY), SOME_KEY);
    assert [] + [Started(1, SOME_KEY)] == Last(launched).log;
  }

  lemma Remove(run: Run, p: Pid) returns (longer: Run)
    requires run.Valid() && PunctualRun(run, 1) && Calling(Last(run), p) && Last(run).procs[p].pc.RemoveStale?
    ensures longer.Valid() && PunctualRun(longer, 1)
    ensures Last(longer) == Retry(Last(run), p).(dir := Last(run).dir - {LockFile(SOME_KEY)})
    ensures Orderly(run) && !DeletesUnseen(Last(run), FileOp(p)) ==> Orderly(longer)
  {
    assert Punctual(Last(run), 1);
    longer := Go(run, FileOp(p), Retry(Last(run), p).(dir := Last(run).dir - {LockFile(SOME_KEY)}));
  }

  lemma CheckAgain(run: Run, p: Pid) returns (longer: Run)
    requires run.Valid() && PunctualRun(run, 1) && Calling(Last(run), p) && Last(run).procs[p].pc.CheckPublished?
    requires !Marked(Last(run).dir, SOME_KEY)
    ensures longer.Valid() && PunctualRun(longer, 1) && Last(longer) == GoTo(Last(run), p, CreateLock)
    ensures Orderly(run) ==> Orderly(longer)
  {
    var s := Last(run);
    assert Punctual(s, 1);
    longer := Go(run, FileOp(p), GoTo(s, p, CheckUnknown));
    longer := Go(longer, FileOp(p), GoTo(s, p, CreateLock));
  }

  /** Deletes the lock, whichever file it is by now, and gets back to creating one. */
  lemma TakeAway(run: Run, p: Pid) returns (longer: Run)
    requires run.Valid() && PunctualRun(run, 1) && Calling(Last(run), p) && Last(run).procs[p].pc.RemoveStale?
    requires !Marked(Last(run).dir, SOME_KEY)
    ensures longer.Valid() && PunctualRun(longer, 1)
    ensures Last(longer) == GoTo(Retry(Last(run), p), p, CreateLock).(dir := Last(run).dir - {LockFile(SOME_KEY)})
    ensures Orderly(run) && !DeletesUnseen(Last(run), FileOp(p)) ==> Orderly(longer)
  {
    longer := Remove(run, p);
    longer := CheckAgain(longer, p);
  }

  /** Deletes the lock and reserves the key. */
  lemma TakeOver(run: Run, p: Pid) returns (longer: Run)
    requires run.Valid() && PunctualRun(run, 1) && Calling(Last(run), p) && Last(run).procs[p].pc.RemoveStale?
    requires !Marked(Last(run).dir, SOME_KEY)
    ensures longer.Valid() && PunctualRun(longer, 1)
    ensures Last(longer) == Created(Retry(Last(run), p), p, Holding(|Last(run).creations|))
    ensures Orderly(run) && !DeletesUnseen(Last(run), FileOp(p)) ==> Orderly(longer)
  {
    longer := TakeAway(run, p);
    longer := CreateAndWrite(longer, p);
    assert Last(longer) == Created(Retry(Last(run), p), p, Holding(|Last(run).creations|));
  }

  lemma TwoHolders() returns (run: Run)
    ensures run.Valid() && PunctualRun(run, 1)
    ensures HoldsKey(Last(run), 2, SOME_KEY) && Last(run).procs[2].alive && Last(run).procs[2].pc.Holding?
    ensures HoldsKey(Last(run), 3, SOME_KEY) && Last(run).procs[3].alive && Last(run).procs[3].pc.Holding?
    ensures Last(run).log == []
  {
    run := AbandonedLock(false);
    run := FindStale(run, 2);
    run := FindStale(run, 3);
    run := TakeOver(run, 2);
    run := TakeOver(run, 3);
  }

  /**
   * One process crashed with the lock before it published; two others, punctual, both found it stale. The second
   * deletes the lock that the first has just created, both live processes hold the key, and both publish.
   */
  lemma StaleRemovalRace() returns (run: Run)
    ensures run.Valid() && PunctualRun(run, 1) && !MutualExclusion(Last(run)) && !PublishesAtMostOnce(run)
    ensures !RemovesOnlySeen(run) && !RemovalsSpareTheLiving(run)
    ensures Last(run).log == [Started(2, SOME_KEY), Started(3, SOME_KEY)]
  {
    run := TwoHolders();
    run := Publish(run, 2);
    run := Publish(run, 3);
    CountTwo(Last(run).log);
    PublishedTwice(run);
    assert HoldsKey(Last(run), 2, SOME_KEY) && HoldsKey(Last(run), 3, SOME_KEY);
    if RemovalsSpareTheLiving(run) {
      MutualExclusionAlways(run, |run.states| - 1);
    }
    if RemovesOnlySeen(run) {
      SeenRemovalsSpareTheLiving(run, 1);
    }
  }

  /**
   * A process crashes inside its publish call. Its lock goes stale; one other process removes that very lock, finds
   * no marker, and publishes again. Nobody was late, no live lock was touched, and no two live processes ever held
   * the key together: an unconfirmed send is retried all the same.
   */
  lemma AbandonedPublishRace() returns (run: Run)
    ensures run.Valid() && PunctualRun(run, 1) && RemovesOnlySeen(run) && RemovalsSpareTheLiving(run)
    ensures forall i :: 0 <= i < |run.states| ==> MutualExclusion(run.states[i])
    ensures UnmarkedStarts(run) && !NoneAbandonedAtStarts(run) && !PublishesAtMostOnce(run)
    ensures Last(run).log == [Started(1, SOME_KEY), Started(2, SOME_KEY)]
  {
    run := AbandonedLock(true);
    run := FindStale(run, 2);
    run := TakeOver(run, 2);
    run := Publish(run, 2);
    CountTwo(Last(run).log);
    PublishedTwice(run);
    SeenRemovalsSpareTheLiving(run, 1);
    AtMostOnceWhenSpared(run);
  }
}
