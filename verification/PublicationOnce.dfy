/** When many processes on one directory publish a reply at most once. */
module PublicationOnce {
  import opened PublicationFiles
  import opened PublishLog
  import opened PublicationProtocol
  import opened PublicationSafety

  // ----- where publish calls go

  /** It has a publish call for the key that is neither rejected nor settled. */
  predicate IsLauncher(proc: Process, key: Key) {
    proc.key == key && proc.Launched()
  }

  /** The processes, crashed ones included, with such a call. */
  function Launchers(s: State, key: Key): set<Pid> {
    set p | p in s.procs && IsLauncher(s.procs[p], key)
  }

  /** The action records a publication for the key that may have been delivered. */
  predicate SettlesLaunched(s: State, a: Action, key: Key)
    requires Enabled(s, a)
  {
    a.FileOp? && s.procs[a.pid].key == key && s.procs[a.pid].pc.Settling? && s.procs[a.pid].Launched()
  }

  /** It finds the lock gone: the rename throws, and no marker is left. */
  predicate SettlementFails(s: State, a: Action, key: Key)
    requires Enabled(s, a)
  {
    SettlesLaunched(s, a, key) && LockFile(key) !in s.dir
  }

  function Settlements(run: Run, i: nat, key: Key): nat
    requires run.Valid() && i < |run.states|
  {
    if i == 0 then 0
    else Settlements(run, i - 1, key) + if SettlesLaunched(run.states[i - 1], run.actions[i - 1], key) then 1 else 0
  }

  predicate Starts(s: State, a: Action, key: Key)
    requires Enabled(s, a)
  {
    a.StartPublish? && s.procs[a.pid].key == key
  }

  predicate Rejects(s: State, a: Action, key: Key)
    requires Enabled(s, a)
  {
    a.EndPublish? && a.outcome.NotDelivered? && s.procs[a.pid].key == key
  }

  lemma LauncherStep(s: State, a: Action, key: Key, p: Pid)
    requires Enabled(s, a) && p in s.procs
    ensures IsLauncher(Next(s, a).procs[p], key) <==>
      if Starts(s, a, key) && p == a.pid then true
      else IsLauncher(s.procs[p], key) && !((Rejects(s, a, key) || SettlesLaunched(s, a, key)) && p == a.pid)
  {
  }

  lemma LaunchersStep(s: State, a: Action, key: Key)
    requires Enabled(s, a)
    ensures Launchers(Next(s, a), key) ==
      if Starts(s, a, key) then Launchers(s, key) + {a.pid}
      else if Rejects(s, a, key) || SettlesLaunched(s, a, key) then Launchers(s, key) - {a.pid}
      else Launchers(s, key)
    ensures Starts(s, a, key) ==> a.pid !in Launchers(s, key)
    ensures Rejects(s, a, key) || SettlesLaunched(s, a, key) ==> a.pid in Launchers(s, key)
  {
    forall p | p in s.procs
      ensures p in Launchers(Next(s, a), key) <==>
        if Starts(s, a, key) && p == a.pid then true
        else p in Launchers(s, key) && !((Rejects(s, a, key) || SettlesLaunched(s, a, key)) && p == a.pid)
    {
      LauncherStep(s, a, key, p);
    }
  }

  lemma LogStep(s: State, a: Action, key: Key)
    requires Enabled(s, a)
    ensures PossiblyDelivered(Next(s, a).log, key) == PossiblyDelivered(s.log, key)
      + (if Starts(s, a, key) then 1 else 0) - (if Rejects(s, a, key) then 1 else 0)
  {
    var s' := Next(s, a);
    if s'.log != s.log {
      CountsOfSnoc(s.log, s'.log[|s.log|], key);
      assert s'.log == s.log + [s'.log[|s.log|]];
    }
  }

  /** Every publish call that may have delivered is either still some process's, or has been settled. */
  lemma {:induction false} CallsConserved(run: Run, i: nat, key: Key)
    requires run.Valid() && i < |run.states|
    ensures PossiblyDelivered(run.states[i].log, key) == |Launchers(run.states[i], key)| + Settlements(run, i, key)
  {
    if i > 0 {
      CallsConserved(run, i - 1, key);
      LaunchersStep(run.states[i - 1], run.actions[i - 1], key);
      LogStep(run.states[i - 1], run.actions[i - 1], key);
    } else {
      assert Launchers(run.states[0], key) == {};
    }
  }

  /** A marker appears exactly when a publication is settled with its lock in place. */
  lemma MarkedStep(s: State, a: Action, key: Key)
    requires Enabled(s, a)
    ensures Marked(Next(s, a).dir, key) <==>
      Marked(s.dir, key) || (SettlesLaunched(s, a, key) && !SettlementFails(s, a, key))
  {
  }

  /** Some process failed to record, before the run's state `i`, that its publication may have been delivered. */
  ghost predicate SettlementLost(run: Run, i: nat, key: Key)
    requires run.Valid() && i < |run.states|
  {
    exists j: nat :: j < i && SettlementFails(run.states[j], run.actions[j], key)
  }

  lemma {:induction false} SettledMeansMarkedOrLost(run: Run, i: nat, key: Key)
    requires run.Valid() && i < |run.states|
    ensures Settlements(run, i, key) > 0 <==> Marked(run.states[i].dir, key) || SettlementLost(run, i, key)
  {
    if i > 0 {
      SettledMeansMarkedOrLost(run, i - 1, key);
      MarkedStep(run.states[i - 1], run.actions[i - 1], key);
      assert SettlementLost(run, i, key) <==>
        SettlementLost(run, i - 1, key) || SettlementFails(run.states[i - 1], run.actions[i - 1], key);
    }
  }

  // ----- at most once

  /** At no moment of the run are there two publish calls for one key that may both have delivered. */
  ghost predicate PublishesAtMostOnce(run: Run) {
    forall i, key :: 0 <= i < |run.states| ==> PossiblyDelivered(run.states[i].log, key) <= 1
  }

  /** Nothing speaks of an earlier publication: no marker, no process that has called publish, no lost settlement. */
  ghost predicate Clear(run: Run, i: nat, key: Key)
    requires run.Valid() && i < |run.states|
  {
    !Marked(run.states[i].dir, key) && Launchers(run.states[i], key) == {} && !SettlementLost(run, i, key)
  }

  ghost predicate ClearStarts(run: Run)
    requires run.Valid()
  {
    forall i, key :: 0 <= i < |run.actions| && Starts(run.states[i], run.actions[i], key) ==> Clear(run, i, key)
  }

  lemma ClearMeansNoneDelivered(run: Run, i: nat, key: Key)
    requires run.Valid() && i < |run.states|
    ensures Clear(run, i, key) <==> PossiblyDelivered(run.states[i].log, key) == 0
    ensures PossiblyDelivered(run.states[i].log, key) >= 0
  {
    CallsConserved(run, i, key);
    SettledMeansMarkedOrLost(run, i, key);
  }

  lemma DeliveredBeforeStart(run: Run, i: nat, key: Key)
    requires run.Valid() && ClearStarts(run) && i < |run.actions|
    ensures var before, after := PossiblyDelivered(run.states[i].log, key), PossiblyDelivered(run.states[i + 1].log, key);
      after <= before || (before == 0 && after == 1)
  {
    LogStep(run.states[i], run.actions[i], key);
    if Starts(run.states[i], run.actions[i], key) {
      ClearMeansNoneDelivered(run, i, key);
    }
  }

  lemma {:induction false} ClearStartsAtMostOne(run: Run, i: nat, key: Key)
    requires run.Valid() && ClearStarts(run) && i < |run.states|
    ensures PossiblyDelivered(run.states[i].log, key) <= 1
  {
    if i > 0 {
      ClearStartsAtMostOne(run, i - 1, key);
      DeliveredBeforeStart(run, i - 1, key);
    }
  }

  /**
   * At most once, exactly, for every run of many processes, crashes and stale-lock removals included: a key's
   * reply is published at most once if and only if no publish call is made while the key has a marker, a process
   * with a publish call of its own, crashed or not, or a publication that could not be recorded.
   */
  lemma AtMostOnceExactly(run: Run)
    requires run.Valid()
    ensures PublishesAtMostOnce(run) <==> ClearStarts(run)
  {
    if ClearStarts(run) {
      forall i, key | 0 <= i < |run.states|
        ensures PossiblyDelivered(run.states[i].log, key) <= 1
      {
        ClearStartsAtMostOne(run, i, key);
      }
    }
    forall i, key |
      PublishesAtMostOnce(run) && 0 <= i < |run.actions| && Starts(run.states[i], run.actions[i], key)
      ensures Clear(run, i, key)
    {
      ClearMeansNoneDelivered(run, i, key);
      LogStep(run.states[i], run.actions[i], key);
      assert PossiblyDelivered(run.states[i + 1].log, key) <= 1;
    }
  }

  // ----- what remains of the condition when removals spare the living, or nothing is removed

  /** No publish call is made while a marker for its key exists. */
  ghost predicate UnmarkedStarts(run: Run)
    requires run.Valid()
  {
    forall i, key :: 0 <= i < |run.actions| && Starts(run.states[i], run.actions[i], key) ==>
      !Marked(run.states[i].dir, key)
  }

  /** A process crashed after it called publish for the key, and nothing records what became of the call. */
  ghost predicate Abandoned(s: State, key: Key) {
    exists p :: p in Launchers(s, key) && !s.procs[p].alive
  }

  ghost predicate NoneAbandonedAtStarts(run: Run)
    requires run.Valid()
  {
    forall i, key :: 0 <= i < |run.actions| && Starts(run.states[i], run.actions[i], key) ==>
      !Abandoned(run.states[i], key)
  }

  lemma SparedRunsLoseNoSettlement(run: Run, i: nat, key: Key)
    requires run.Valid() && RemovalsSpareTheLiving(run) && i < |run.states|
    ensures !SettlementLost(run, i, key)
  {
    forall j: nat | j < i
      ensures !SettlementFails(run.states[j], run.actions[j], key)
    {
      LiveLocksAlways(run, j);
      if SettlesLaunched(run.states[j], run.actions[j], key) {
        assert InPlace(run.states[j], run.actions[j].pid);
      }
    }
  }

  lemma SparedStartFindsOnlyTheDead(run: Run, i: nat, key: Key)
    requires run.Valid() && RemovalsSpareTheLiving(run)
    requires i < |run.actions| && Starts(run.states[i], run.actions[i], key)
    ensures Launchers(run.states[i], key) == {} <==> !Abandoned(run.states[i], key)
  {
    var s, q := run.states[i], run.actions[i].pid;
    MutualExclusionAlways(run, i);
    assert HoldsKey(s, q, key) && q !in Launchers(s, key);
    forall p | p in Launchers(s, key)
      ensures !s.procs[p].alive
    {
      assert HoldsKey(s, p, key);
    }
  }

  /**
   * While stale-lock removals spare the living, crashes allowed: a run publishes at most once per key if and only
   * if no publish call is made with a marker of its key in place, nor after a process that crashed with a publish
   * call for the key under way.
   */
  lemma AtMostOnceWhenSpared(run: Run)
    requires run.Valid() && RemovalsSpareTheLiving(run)
    ensures PublishesAtMostOnce(run) <==> UnmarkedStarts(run) && NoneAbandonedAtStarts(run)
  {
    AtMostOnceExactly(run);
    forall i, key | 0 <= i < |run.actions| && Starts(run.states[i], run.actions[i], key)
      ensures Clear(run, i, key) <==> !Marked(run.states[i].dir, key) && !Abandoned(run.states[i], key)
    {
      SparedRunsLoseNoSettlement(run, i, key);
      SparedStartFindsOnlyTheDead(run, i, key);
    }
  }

  lemma UndisturbedSparesTheLiving(run: Run)
    requires run.Valid() && Undisturbed(run)
    ensures RemovalsSpareTheLiving(run)
  {
    forall i | 0 <= i < |run.actions|
      ensures !TakesLiveLock(run.states[i], run.actions[i])
    {
      assert !TakesLock(run.states[i], run.actions[i]);
    }
  }

  /** While no stale lock is removed at all, crashes allowed, only the markers matter. */
  lemma AtMostOnceUndisturbed(run: Run)
    requires run.Valid() && Undisturbed(run)
    ensures PublishesAtMostOnce(run) <==> UnmarkedStarts(run)
  {
    UndisturbedSparesTheLiving(run);
    AtMostOnceWhenSpared(run);
    forall i, key | 0 <= i < |run.actions| && Starts(run.states[i], run.actions[i], key)
      ensures !Abandoned(run.states[i], key)
    {
      var s, q := run.states[i], run.actions[i].pid;
      KnownAlways(run, i);
      PairedAlways(run, i);
      assert HoldsKey(s, q, key);
      forall p | p in Launchers(s, key)
        ensures s.procs[p].alive
      {
        PairedUnique(s, p, q, key);
      }
    }
  }

  /** While a live process holds a key, no marker of that key appears except by its own settling. */
  lemma HoldingKeepsMarkers(run: Run, i: nat, p: Pid, key: Key)
    requires run.Valid() && RemovalsSpareTheLiving(run) && i < |run.actions|
    requires HoldsKey(run.states[i], p, key) && run.states[i].procs[p].alive && HoldsKey(run.states[i + 1], p, key)
    ensures Marked(run.states[i + 1].dir, key) <==> Marked(run.states[i].dir, key)
  {
    var s, a := run.states[i], run.actions[i];
    MutualExclusionAlways(run, i);
    MarkedStep(s, a, key);
    if SettlesLaunched(s, a, key) {
      assert HoldsKey(s, a.pid, key);
    }
  }

  /** Since state `j` the process has held the key without a break, alive, and at `j` there was no marker. */
  ghost predicate HeldUnmarkedSince(run: Run, j: nat, i: nat, p: Pid, key: Key)
    requires run.Valid() && i < |run.states|
  {
    && j <= i && !Marked(run.states[j].dir, key)
    && forall k :: j <= k <= i ==> HoldsKey(run.states[k], p, key) && run.states[k].procs[p].alive
  }

  /** Every process that starts a publish call looked at the markers once more while holding the key. */
  ghost predicate RechecksMarkers(run: Run)
    requires run.Valid()
  {
    forall i, key :: 0 <= i < |run.actions| && Starts(run.states[i], run.actions[i], key) ==>
      exists j :: HeldUnmarkedSince(run, j, i, run.actions[i].pid, key)
  }

  lemma {:induction false} HeldStaysUnmarked(run: Run, j: nat, i: nat, p: Pid, key: Key)
    requires run.Valid() && RemovalsSpareTheLiving(run) && i < |run.states|
    requires HeldUnmarkedSince(run, j, i, p, key)
    ensures !Marked(run.states[i].dir, key)
  {
    if j < i {
      HeldStaysUnmarked(run, j, i - 1, p, key);
      HoldingKeepsMarkers(run, i - 1, p, key);
    }
  }

  /**
   * What a second look at the markers, after creating the lock, would buy: as long as removals spare the living,
   * only calls abandoned by a crash would be left to publish a reply twice.
   */
  lemma AtMostOnceWithRecheck(run: Run)
    requires run.Valid() && RemovalsSpareTheLiving(run) && RechecksMarkers(run)
    ensures UnmarkedStarts(run)
    ensures PublishesAtMostOnce(run) <==> NoneAbandonedAtStarts(run)
  {
    forall i, key | 0 <= i < |run.actions| && Starts(run.states[i], run.actions[i], key)
      ensures !Marked(run.states[i].dir, key)
    {
      var j :| HeldUnmarkedSince(run, j, i, run.actions[i].pid, key);
      HeldStaysUnmarked(run, j, i, run.actions[i].pid, key);
    }
    AtMostOnceWhenSpared(run);
  }
}
