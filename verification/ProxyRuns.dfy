/**
 * Whole runs of one proxy process: steps of the input loop interleave freely with the output loop's awaits.
 * The state directory is reliable and nobody else touches it; it may hold anything to begin with.
 */
module ProxyRuns {
  import opened Json
  import opened PublicationFiles
  import opened PublishLog
  import opened Proxy

  /** The proxy, the state directory, and the log of its publish calls. */
  datatype System = System(proxy: State, dir: Directory, log: seq<Call>)

  datatype Event =
    | ClientSays(m: Message)
    | EveSays(m: Message)
    | ReservationReturns(now: int, inode: nat)
    | PublishReturns(outcome: PublicationOutcome)
    | StoreReturns

  const SELF: Pid := 0

  predicate Gating(s: System) {
    !s.proxy.phase.Ready?
  }

  function GateKey(s: System): Key
    requires Gating(s)
  {
    PublicationKey(s.proxy.phase.gate.route)
  }

  predicate Enabled(s: System, e: Event) {
    match e
    case ClientSays(_) => true
    case EveSays(_) => s.proxy.phase.Ready?
    case ReservationReturns(_, _) => s.proxy.phase.Reserving?
    case PublishReturns(_) => s.proxy.phase.Publishing?
    case StoreReturns => s.proxy.phase.Settling?
  }

  function Next(o: Options, staleAfter: int, s: System, e: Event): System
    requires Enabled(s, e)
  {
    match e
    case ClientSays(m) => s.(proxy := FromClient(o, s.proxy, m))
    case EveSays(m) => s.(proxy := FromEve(o, s.proxy, m))
    case ReservationReturns(now, inode) =>
      var (dir, reservation) := ReserveAlone(s.dir, GateKey(s), now, staleAfter, inode);
      System(
        OnReservation(s.proxy, reservation),
        dir,
        if reservation.Reserved? then s.log + [Started(SELF, GateKey(s))] else s.log)
    case PublishReturns(outcome) =>
      System(OnOutcome(s.proxy, outcome), s.dir, s.log + [Ended(SELF, GateKey(s), outcome)])
    case StoreReturns =>
      if LockFile(GateKey(s)) in s.dir then
        System(OnSettled(s.proxy), SettleAlone(s.dir, GateKey(s), s.proxy.phase.outcome), s.log)
      else if s.proxy.phase.outcome.NotDelivered? then s.(proxy := OnSettled(s.proxy))
      else s.(proxy := OnStoreError(s.proxy, "ENOENT"))
  }

  datatype Run = Run(o: Options, staleAfter: int, states: seq<System>, events: seq<Event>) {
    predicate Valid() {
      && |states| == |events| + 1
      && states[0].proxy == START && states[0].log == []
      && forall i :: 0 <= i < |events| ==>
           Enabled(states[i], events[i]) && states[i + 1] == Next(o, staleAfter, states[i], events[i])
    }
  }

  // ----- at most once

  predicate InPublish(s: System, key: Key) {
    s.proxy.phase.Publishing? && GateKey(s) == key
  }

  /** A publish call for the key has been made, has not been rejected, and is not yet recorded by a marker. */
  predicate Launched(s: System, key: Key) {
    InPublish(s, key) || (s.proxy.phase.Settling? && GateKey(s) == key && !s.proxy.phase.outcome.NotDelivered?)
  }

  /** From reservation to settling the lock is there and no marker is. */
  predicate LockHeld(s: System) {
    s.proxy.phase.Publishing? || s.proxy.phase.Settling? ==>
      LockFile(GateKey(s)) in s.dir && !Marked(s.dir, GateKey(s))
  }

  predicate LogAccounted(log: seq<Call>, key: Key, inPublish: bool, launched: bool, marked: bool) {
    && PossiblyDelivered(log, key) <= 1
    && (launched ==> PossiblyDelivered(log, key) == 1)
    && (!launched && !marked ==> PossiblyDelivered(log, key) == 0)
    && Deliveries(log, key) == if inPublish then 0 else PossiblyDelivered(log, key)
  }

  predicate Accounted(s: System, key: Key) {
    LogAccounted(s.log, key, InPublish(s, key), Launched(s, key), Marked(s.dir, key))
  }

  lemma StartAccounted(log: seq<Call>, key: Key, started: Key, marked: bool)
    requires LogAccounted(log, key, false, false, marked) && (started == key ==> !marked)
    ensures LogAccounted(log + [Started(SELF, started)], key, started == key, started == key, marked)
  {
    CountsOfSnoc(log, Started(SELF, started), key);
  }

  lemma EndAccounted(log: seq<Call>, key: Key, ended: Key, outcome: PublicationOutcome, marked: bool)
    requires LogAccounted(log, key, ended == key, ended == key, marked)
    ensures LogAccounted(
      log + [Ended(SELF, ended, outcome)], key, false, ended == key && !outcome.NotDelivered?, marked)
  {
    CountsOfSnoc(log, Ended(SELF, ended, outcome), key);
  }

  lemma FromClientKeepsPhase(o: Options, s: State, m: Message)
    ensures FromClient(o, s, m).phase == s.phase
  {
  }

  lemma FromEvePhase(o: Options, s: State, m: Message)
    requires s.phase.Ready?
    ensures FromEve(o, s, m).phase.Ready? || FromEve(o, s, m).phase.Reserving?
  {
  }

  lemma LockHeldStep(o: Options, staleAfter: int, s: System, e: Event)
    requires Enabled(s, e) && LockHeld(s)
    ensures LockHeld(Next(o, staleAfter, s, e))
  {
    match e {
      case ClientSays(m) => FromClientKeepsPhase(o, s.proxy, m);
      case EveSays(m) => FromEvePhase(o, s.proxy, m);
      case _ =>
    }
  }

  /** A reservation opens a publish call, or leaves everything as it was. */
  predicate StartsPublish(s: System, s': System, started: bool, gateKey: Key, key: Key) {
    && s'.log == (if started then s.log + [Started(SELF, gateKey)] else s.log)
    && InPublish(s', key) == Launched(s', key) == (started && gateKey == key)
    && Marked(s'.dir, key) == Marked(s.dir, key)
    && (started ==> !Marked(s.dir, gateKey))
  }

  lemma ReservationOpens(o: Options, staleAfter: int, s: System, now: int, inode: nat, key: Key)
    requires s.proxy.phase.Reserving?
    ensures StartsPublish(s, Next(o, staleAfter, s, ReservationReturns(now, inode)),
      ReserveAlone(s.dir, GateKey(s), now, staleAfter, inode).1.Reserved?, GateKey(s), key)
  {
  }

  lemma OpenedAccounted(s: System, s': System, started: bool, gateKey: Key, key: Key)
    requires s.proxy.phase.Reserving? && Accounted(s, key) && StartsPublish(s, s', started, gateKey, key)
    ensures Accounted(s', key)
  {
    if started {
      StartAccounted(s.log, key, gateKey, Marked(s.dir, key));
    }
  }

  lemma AccountedReservation(o: Options, staleAfter: int, s: System, now: int, inode: nat, key: Key)
    requires s.proxy.phase.Reserving? && Accounted(s, key)
    ensures Accounted(Next(o, staleAfter, s, ReservationReturns(now, inode)), key)
  {
    ReservationOpens(o, staleAfter, s, now, inode, key);
    OpenedAccounted(s, Next(o, staleAfter, s, ReservationReturns(now, inode)),
      ReserveAlone(s.dir, GateKey(s), now, staleAfter, inode).1.Reserved?, GateKey(s), key);
  }

  lemma AccountedOutcome(o: Options, staleAfter: int, s: System, outcome: PublicationOutcome, key: Key)
    requires s.proxy.phase.Publishing? && Accounted(s, key)
    ensures Accounted(Next(o, staleAfter, s, PublishReturns(outcome)), key)
  {
    EndAccounted(s.log, key, GateKey(s), outcome, Marked(s.dir, key));
  }

  lemma AccountedStore(o: Options, staleAfter: int, s: System, key: Key)
    requires s.proxy.phase.Settling? && LockHeld(s) && Accounted(s, key)
    ensures Accounted(Next(o, staleAfter, s, StoreReturns), key)
  {
  }

  lemma AccountedStep(o: Options, staleAfter: int, s: System, e: Event, key: Key)
    requires Enabled(s, e) && LockHeld(s) && Accounted(s, key)
    ensures Accounted(Next(o, staleAfter, s, e), key)
  {
    match e {
      case ClientSays(m) => FromClientKeepsPhase(o, s.proxy, m);
      case EveSays(m) => FromEvePhase(o, s.proxy, m);
      case ReservationReturns(now, inode) => AccountedReservation(o, staleAfter, s, now, inode, key);
      case PublishReturns(outcome) => AccountedOutcome(o, staleAfter, s, outcome, key);
      case StoreReturns => AccountedStore(o, staleAfter, s, key);
    }
  }

  lemma {:induction false} AccountedAlways(run: Run, i: nat, key: Key)
    requires run.Valid() && i < |run.states|
    ensures LockHeld(run.states[i]) && Accounted(run.states[i], key)
  {
    if i > 0 {
      AccountedAlways(run, i - 1, key);
      LockHeldStep(run.o, run.staleAfter, run.states[i - 1], run.events[i - 1]);
      AccountedStep(run.o, run.staleAfter, run.states[i - 1], run.events[i - 1], key);
    }
  }

  lemma LogGrows(o: Options, staleAfter: int, s: System, e: Event)
    requires Enabled(s, e)
    ensures Next(o, staleAfter, s, e).log == s.log
      || exists call :: Next(o, staleAfter, s, e).log == s.log + [call]
  {
    match e {
      case ReservationReturns(_, _) =>
        var call := Started(SELF, GateKey(s));
        assert Next(o, staleAfter, s, e).log in {s.log, s.log + [call]};
      case PublishReturns(outcome) =>
        var call := Ended(SELF, GateKey(s), outcome);
        assert Next(o, staleAfter, s, e).log == s.log + [call];
      case _ =>
    }
  }

  lemma {:induction false} LogPrefixes(run: Run, i: nat, key: Key)
    requires run.Valid() && i < |run.states|
    ensures AtMostOnce(run.states[i].log, key) && EveryEndWasStarted(run.states[i].log, key)
  {
    AccountedAlways(run, i, key);
    if i > 0 {
      LogPrefixes(run, i - 1, key);
      LogGrows(run.o, run.staleAfter, run.states[i - 1], run.events[i - 1]);
      if run.states[i].log != run.states[i - 1].log {
        var call :| run.states[i].log == run.states[i - 1].log + [call];
        PrefixesOfSnoc(run.states[i - 1].log, call, key);
        StartedPrefixesOfSnoc(run.states[i - 1].log, call, key);
      }
    }
  }

  lemma StartedPrefixesOfSnoc(log: seq<Call>, call: Call, key: Key)
    requires EveryEndWasStarted(log, key)
    requires Deliveries(log + [call], key) <= PossiblyDelivered(log + [call], key)
    ensures EveryEndWasStarted(log + [call], key)
  {
    forall n | 0 <= n <= |log| + 1
      ensures Deliveries((log + [call])[..n], key) <= PossiblyDelivered((log + [call])[..n], key)
    {
      if n <= |log| {
        assert (log + [call])[..n] == log[..n];
      } else {
        assert (log + [call])[..n] == log + [call];
      }
    }
  }

  /**
   * At most once, in every run of one proxy, however many turns share the route and however the input loop
   * interleaves: at most one publish call per key ends delivered or unknown, and none is started after it.
   */
  lemma PublishedAtMostOnce(run: Run, i: nat, key: Key)
    requires run.Valid() && i < |run.states|
    ensures var log := run.states[i].log;
      && AtMostOnce(log, key)
      && Deliveries(log, key) <= 1
      && (forall a, b :: 0 <= a < b < |log| && IsDelivery(log[a], key) ==> !IsStart(log[b], key))
  {
    LogPrefixes(run, i, key);
    AtMostOnceMeans(run.states[i].log, key);
  }

  // ----- no false success

  /** The held-back response is a completed one; a delivered outcome being settled is in the log. */
  predicate GateSound(s: System) {
    Gating(s) ==>
      && IsCompleted(s.proxy.phase.gate.message)
      && (s.proxy.phase.Settling? && s.proxy.phase.outcome.Delivered? ==> Confirmed(s.log, GateKey(s)))
  }

  lemma GateSoundStep(o: Options, staleAfter: int, s: System, e: Event)
    requires Enabled(s, e) && GateSound(s)
    ensures GateSound(Next(o, staleAfter, s, e))
  {
    match e {
      case ClientSays(m) => FromClientKeepsPhase(o, s.proxy, m);
      case PublishReturns(outcome) => ConfirmedSnoc(s.log, Ended(SELF, GateKey(s), outcome), GateKey(s));
      case _ =>
    }
  }

  /** A published marker that was not there to begin with stands for a confirmed publish call. */
  lemma {:induction false} MarkerIsConfirmed(run: Run, i: nat, key: Key)
    requires run.Valid() && i < |run.states|
    ensures GateSound(run.states[i])
    ensures PublishedFile(key) in run.states[i].dir && PublishedFile(key) !in run.states[0].dir ==>
      Confirmed(run.states[i].log, key)
  {
    if i > 0 {
      var s, e := run.states[i - 1], run.events[i - 1];
      MarkerIsConfirmed(run, i - 1, key);
      GateSoundStep(run.o, run.staleAfter, s, e);
      match e {
        case ReservationReturns(now, inode) => ConfirmedSnoc(s.log, Started(SELF, GateKey(s)), key);
        case PublishReturns(outcome) => ConfirmedSnoc(s.log, Ended(SELF, GateKey(s), outcome), key);
        case _ =>
      }
    }
  }

  lemma ErrorIsNotSuccess(id: Json, detail: string, m: Message)
    requires IsCompleted(m)
    ensures ErrorReply(id, detail) != m
  {
    assert Get(ErrorReply(id, detail), "error") != Undefined;
  }

  /** The step by which a gated turn is answered. */
  lemma GateAnswer(o: Options, staleAfter: int, s: System, e: Event)
    requires Enabled(s, e) && LockHeld(s) && GateSound(s) && Gating(s)
    requires !Gating(Next(o, staleAfter, s, e))
    ensures var s', gate := Next(o, staleAfter, s, e), s.proxy.phase.gate;
      && |s'.proxy.toClient| == |s.proxy.toClient| + 1
      && s'.proxy.toClient[..|s.proxy.toClient|] == s.proxy.toClient
      && var out := s'.proxy.toClient[|s.proxy.toClient|];
      && (out == gate.message <==> PublishedFile(GateKey(s)) in s'.dir)
      && (out != gate.message ==> exists detail :: out == ErrorReply(Get(gate.message, "id"), detail))
  {
    var gate := s.proxy.phase.gate;
    match e {
      case ClientSays(m) =>
        FromClientKeepsPhase(o, s.proxy, m);
      case ReservationReturns(now, inode) =>
        ErrorIsNotSuccess(Get(gate.message, "id"), PREVIOUS_UNKNOWN, gate.message);
        ErrorIsNotSuccess(Get(gate.message, "id"), BEING_PUBLISHED, gate.message);
      case StoreReturns =>
        if !s.proxy.phase.outcome.Delivered? {
          ErrorIsNotSuccess(Get(gate.message, "id"), s.proxy.phase.outcome.reason, gate.message);
        }
      case _ =>
    }
  }

  /**
   * No false success, in every run: when a gated turn is answered, the client gets eve's own end_turn response if
   * and only if the published marker of the turn's key is then in place, and the -32603 error otherwise; and the
   * marker was there to begin with or its publish call was confirmed.
   */
  lemma NoFalseSuccess(run: Run, i: nat)
    requires run.Valid() && i < |run.events|
    requires Gating(run.states[i]) && !Gating(run.states[i + 1])
    ensures var s, s' := run.states[i], run.states[i + 1];
      var gate, n := s.proxy.phase.gate, |s.proxy.toClient|;
      && |s'.proxy.toClient| == n + 1
      && IsCompleted(gate.message)
      && (s'.proxy.toClient[n] == gate.message <==> PublishedFile(GateKey(s)) in s'.dir)
      && (s'.proxy.toClient[n] != gate.message ==>
            exists detail :: s'.proxy.toClient[n] == ErrorReply(Get(gate.message, "id"), detail))
      && (s'.proxy.toClient[n] == gate.message ==>
            PublishedFile(GateKey(s)) in run.states[0].dir || Confirmed(s'.log, GateKey(s)))
  {
    var s := run.states[i];
    AccountedAlways(run, i, GateKey(s));
    MarkerIsConfirmed(run, i, GateKey(s));
    MarkerIsConfirmed(run, i + 1, GateKey(s));
    GateAnswer(run.o, run.staleAfter, s, run.events[i]);
  }

  /**
   * Which answer a gated turn gets, in every run: the error exactly when a previous delivery is unknown, another
   * publication holds a lock that is not stale, or this one was not delivered. The store itself never fails.
   */
  lemma GateAnswerExactly(run: Run, i: nat)
    requires run.Valid() && i < |run.events|
    requires Gating(run.states[i]) && !Gating(run.states[i + 1])
    ensures run.events[i].ReservationReturns? || run.events[i] == StoreReturns
    ensures var s, e, answer := run.states[i], run.events[i], run.states[i + 1].proxy.toClient;
      var message, lock := s.proxy.phase.gate.message, LockFile(GateKey(s));
      answer == s.proxy.toClient + [
        if e.ReservationReturns? then
          if PublishedFile(GateKey(s)) in s.dir then message
          else if UnknownFile(GateKey(s)) in s.dir then ErrorReply(Get(message, "id"), PREVIOUS_UNKNOWN)
          else ErrorReply(Get(message, "id"), BEING_PUBLISHED)
        else match s.proxy.phase.outcome
             case Delivered(_) => message
             case NotDelivered(reason) => ErrorReply(Get(message, "id"), reason)
             case DeliveryUnknown(reason) => ErrorReply(Get(message, "id"), reason)]
    ensures run.events[i].ReservationReturns? && !Marked(run.states[i].dir, GateKey(run.states[i])) ==>
      var lock := LockFile(GateKey(run.states[i]));
      lock in run.states[i].dir && run.events[i].now - run.states[i].dir[lock].mtime < run.staleAfter
  {
    var s := run.states[i];
    AccountedAlways(run, i, GateKey(s));
    match run.events[i] {
      case ClientSays(m) => FromClientKeepsPhase(run.o, s.proxy, m);
      case _ =>
    }
  }

  /** Were the lock gone when a delivery is to be recorded, the client would get the error, not eve's response. */
  lemma LostLockIsReported(o: Options, staleAfter: int, s: System)
    requires s.proxy.phase.Settling? && !s.proxy.phase.outcome.NotDelivered? && LockFile(GateKey(s)) !in s.dir
    ensures var s' := Next(o, staleAfter, s, StoreReturns);
      && s'.proxy.toClient == s.proxy.toClient + [ErrorReply(Get(s.proxy.phase.gate.message, "id"), "ENOENT")]
      && s'.dir == s.dir && s'.log == s.log
  {
  }

  // ----- a rejected reply can be published again

  /** Nothing stands in the way of a reservation of the key, and none is under way past its file operations. */
  predicate Unhindered(s: System, key: Key) {
    && !Marked(s.dir, key) && LockFile(key) !in s.dir
    && !((s.proxy.phase.Publishing? || s.proxy.phase.Settling?) && GateKey(s) == key)
  }

  /** A reservation of the key comes back. */
  predicate Reserves(s: System, e: Event, key: Key) {
    e.ReservationReturns? && Gating(s) && GateKey(s) == key
  }

  lemma RejectionUnhinders(o: Options, staleAfter: int, s: System)
    requires s.proxy.phase.Settling? && s.proxy.phase.outcome.NotDelivered? && LockHeld(s)
    ensures Unhindered(Next(o, staleAfter, s, StoreReturns), GateKey(s))
    ensures Next(o, staleAfter, s, StoreReturns).dir == s.dir - {LockFile(GateKey(s))}
  {
  }

  lemma UnhinderedStep(o: Options, staleAfter: int, s: System, e: Event, key: Key)
    requires Enabled(s, e) && Unhindered(s, key)
    requires !Reserves(s, e, key)
    ensures Unhindered(Next(o, staleAfter, s, e), key)
  {
    match e {
      case ClientSays(m) => FromClientKeepsPhase(o, s.proxy, m);
      case EveSays(m) => FromEvePhase(o, s.proxy, m);
      case _ =>
    }
  }

  lemma StaysUnhindered(run: Run, k: nat, key: Key)
    requires run.Valid() && k < |run.events| && Unhindered(run.states[k], key)
    requires !Reserves(run.states[k], run.events[k], key)
    ensures Unhindered(run.states[k + 1], key)
  {
    UnhinderedStep(run.o, run.staleAfter, run.states[k], run.events[k], key);
  }

  lemma {:induction false} UnhinderedUntil(run: Run, i: nat, j: nat, key: Key)
    requires run.Valid() && i <= j < |run.states| && Unhindered(run.states[i], key)
    requires forall k :: i <= k < j ==> !Reserves(run.states[k], run.events[k], key)
    ensures Unhindered(run.states[j], key)
  {
    if i < j {
      UnhinderedUntil(run, i, j - 1, key);
      StaysUnhindered(run, j - 1, key);
    }
  }

  /**
   * A rejection leaves neither lock nor marker: once a publish call for a key has been rejected and its reservation
   * settled, the next reservation of the key, whenever it comes, goes through to another publish call.
   */
  lemma RejectedMayBePublishedAgain(run: Run, i: nat, j: nat)
    requires run.Valid() && i < j < |run.events|
    requires run.events[i] == StoreReturns && run.states[i].proxy.phase.outcome.NotDelivered?
    requires Reserves(run.states[j], run.events[j], GateKey(run.states[i]))
    requires forall k :: i < k < j ==> !Reserves(run.states[k], run.events[k], GateKey(run.states[i]))
    ensures run.states[i + 1].dir == run.states[i].dir - {LockFile(GateKey(run.states[i]))}
    ensures !Marked(run.states[i + 1].dir, GateKey(run.states[i]))
    ensures run.states[j + 1].proxy.phase == Publishing(run.states[j].proxy.phase.gate)
    ensures run.states[j + 1].log == run.states[j].log + [Started(SELF, GateKey(run.states[j]))]
  {
    AccountedAlways(run, i, GateKey(run.states[i]));
    RejectionUnhinders(run.o, run.staleAfter, run.states[i]);
    UnhinderedUntil(run, i + 1, j, GateKey(run.states[i]));
  }
}
