/** The proxy's bookkeeping of outstanding requests, and what becomes of every message that enters it. */
module ProxyStreams {
  import opened Json
  import opened BuzzContext
  import opened PublicationFiles
  import opened Proxy
  import opened ProxyRuns
  import opened ProxyHistory

  // ----- outstanding requests

  /** The client sends a request on to eve. */
  predicate Registers(o: Options, e: Event, key: string) {
    e.ClientSays? && IsRequest(e.m) && !IsLocal(o, e.m) && KeyForId(Get(e.m, "id")) == key
  }

  predicate Answers(e: Event, key: string) {
    e.EveSays? && IsResponse(e.m) && KeyForId(Get(e.m, "id")) == key
  }

  /** The client's last request with this key is event `r`, and eve has not answered it. */
  predicate AskedAt(o: Options, events: seq<Event>, key: string, r: nat) {
    && r < |events| && Registers(o, events[r], key)
    && forall j :: r < j < |events| ==> !Registers(o, events[j], key) && !Answers(events[j], key)
  }

  predicate Outstanding(o: Options, events: seq<Event>, key: string) {
    exists r: nat :: r < |events| && AskedAt(o, events, key, r)
  }

  lemma OutstandingSnoc(o: Options, events: seq<Event>, e: Event, key: string)
    ensures Outstanding(o, events + [e], key) <==>
      Registers(o, e, key) || (Outstanding(o, events, key) && !Answers(e, key))
    ensures forall r: nat :: AskedAt(o, events + [e], key, r) ==>
      if r == |events| then Registers(o, e, key) else !Registers(o, e, key) && AskedAt(o, events, key, r)
  {
    var all := events + [e];
    assert all[|events|] == e && forall j :: 0 <= j < |events| ==> all[j] == events[j];
    if Registers(o, e, key) {
      assert AskedAt(o, all, key, |events|);
    } else if Outstanding(o, events, key) && !Answers(e, key) {
      var r: nat :| r < |events| && AskedAt(o, events, key, r);
      assert AskedAt(o, all, key, r);
    }
    forall r: nat | AskedAt(o, all, key, r)
      ensures if r == |events| then Registers(o, e, key) else !Registers(o, e, key) && AskedAt(o, events, key, r)
    {
      if r < |events| {
        assert all[|events|] == e;
        forall j | r < j < |events|
          ensures !Registers(o, events[j], key) && !Answers(events[j], key)
        {
          assert all[j] == events[j];
        }
      }
    }
  }

  lemma RequestsAfterClientSays(o: Options, s: State, m: Message, key: string)
    ensures var after := FromClient(o, s, m).requests;
      && (key in after <==> Registers(o, ClientSays(m), key) || key in s.requests)
      && (key in after ==>
            after[key] == if Registers(o, ClientSays(m), key) then Get(m, "method") else s.requests[key])
  {
  }

  lemma RequestsAfterEveSays(o: Options, s: State, m: Message, key: string)
    requires s.phase.Ready?
    ensures var after := FromEve(o, s, m).requests;
      && (key in after <==> key in s.requests && !Answers(EveSays(m), key))
      && (key in after ==> after[key] == s.requests[key])
  {
  }

  lemma RequestsStep(o: Options, staleAfter: int, s: System, e: Event, key: string)
    requires Enabled(s, e)
    ensures var after := Next(o, staleAfter, s, e).proxy.requests;
      && (key in after <==> Registers(o, e, key) || (key in s.proxy.requests && !Answers(e, key)))
      && (key in after ==>
            after[key] == if Registers(o, e, key) then Get(e.m, "method") else s.proxy.requests[key])
  {
    match e {
      case ClientSays(m) => RequestsAfterClientSays(o, s.proxy, m, key);
      case EveSays(m) => RequestsAfterEveSays(o, s.proxy, m, key);
      case _ =>
    }
  }

  /** The requests entry of one key, after the events so far. */
  ghost predicate RequestTold(o: Options, requests: map<string, Json>, events: seq<Event>, key: string) {
    && (key in requests <==> Outstanding(o, events, key))
    && (forall r: nat :: AskedAt(o, events, key, r) ==>
          key in requests && requests[key] == Get(events[r].m, "method"))
  }

  lemma RequestToldStep(
    o: Options, before: map<string, Json>, events: seq<Event>, e: Event, after: map<string, Json>, key: string)
    requires RequestTold(o, before, events, key)
    requires key in after <==> Registers(o, e, key) || (key in before && !Answers(e, key))
    requires key in after ==> after[key] == if Registers(o, e, key) then Get(e.m, "method") else before[key]
    ensures RequestTold(o, after, events + [e], key)
  {
    OutstandingSnoc(o, events, e, key);
    forall r: nat | AskedAt(o, events + [e], key, r)
      ensures key in after && after[key] == Get((events + [e])[r].m, "method")
    {
      assert Outstanding(o, events + [e], key);
    }
  }

  /** In every run, `requests` holds exactly the client's requests that eve has not answered, with their methods. */
  lemma {:induction false} RequestsAreOutstanding(run: Run, i: nat, key: string)
    requires run.Valid() && i < |run.states|
    ensures RequestTold(run.o, run.states[i].proxy.requests, run.events[..i], key)
  {
    if i > 0 {
      RequestsAreOutstanding(run, i - 1, key);
      RequestsStep(run.o, run.staleAfter, run.states[i - 1], run.events[i - 1], key);
      RequestToldStep(run.o, run.states[i - 1].proxy.requests, run.events[..i - 1], run.events[i - 1],
        run.states[i].proxy.requests, key);
      assert run.events[..i] == run.events[..i - 1] + [run.events[i - 1]];
    }
  }

  predicate Settles(s: System, key: string) {
    Gating(s) && s.proxy.phase.gate.requestKey == key
  }

  /** JSON-RPC section 4: the client does not reuse an id while it has no answer to it. */
  ghost predicate UniqueIds(run: Run)
    requires run.Valid()
  {
    forall i, key :: 0 <= i < |run.events| && Registers(run.o, run.events[i], key) ==>
      !Outstanding(run.o, run.events[..i], key) && !Settles(run.states[i], key)
  }

  /** The turns are those of the outstanding prompts, and the one being settled. */
  predicate Balanced(s: System, key: string) {
    && (key in s.proxy.turns <==>
          (key in s.proxy.requests && s.proxy.requests[key] == Str("session/prompt")) || Settles(s, key))
    && (Settles(s, key) ==> key !in s.proxy.requests)
  }

  lemma PromptRegisters(o: Options, m: Message)
    ensures IsPrompt(m) ==> IsRequest(m) && !IsLocal(o, m)
  {
    if IsPrompt(m) {
      PromptsAndCancelsTravel(o, m);
    }
  }

  lemma BalancedClient(o: Options, s: System, m: Message, key: string)
    requires Balanced(s, key)
    requires Registers(o, ClientSays(m), key) ==> key !in s.proxy.requests && !Settles(s, key)
    ensures Balanced(s.(proxy := FromClient(o, s.proxy, m)), key)
  {
    PromptRegisters(o, m);
    FromClientKeepsPhase(o, s.proxy, m);
  }

  lemma BalancedEve(o: Options, s: System, m: Message, key: string)
    requires s.proxy.phase.Ready? && Balanced(s, key) && Balanced(s, KeyForId(Get(m, "id")))
    ensures Balanced(s.(proxy := FromEve(o, s.proxy, m)), key)
  {
  }

  /** The gated turn is over: it is off the turns, and its response or an error in its place is sent. */
  ghost predicate Answered(s: State, s': State, gate: Gate) {
    && s'.requests == s.requests && s'.turns == s.turns - {gate.requestKey}
    && s'.phase.Ready? && s'.toEve == s.toEve
    && exists reply :: s'.toClient == s.toClient + [reply] && AnswersGate(gate, reply)
  }

  ghost predicate AnswersGate(gate: Gate, reply: Message) {
    reply == gate.message || exists detail :: reply == ErrorReply(Get(gate.message, "id"), detail)
  }

  lemma ReplyAnswers(s: State, gate: Gate)
    ensures Answered(s, Reply(s, gate.requestKey, gate.message), gate)
  {
    assert AnswersGate(gate, gate.message);
  }

  lemma FailAnswers(s: State, gate: Gate, detail: string)
    ensures Answered(s, Fail(s, gate, detail), gate)
  {
    assert AnswersGate(gate, ErrorReply(Get(gate.message, "id"), detail));
  }

  lemma ReservationAnswers(s: State, reservation: Reservation)
    requires s.phase.Reserving? && !reservation.Reserved?
    ensures Answered(s, OnReservation(s, reservation), s.phase.gate)
  {
    match reservation {
      case AlreadyPublished => ReplyAnswers(s, s.phase.gate);
      case PreviouslyUnknown => FailAnswers(s, s.phase.gate, PREVIOUS_UNKNOWN);
      case Busy => FailAnswers(s, s.phase.gate, BEING_PUBLISHED);
    }
  }

  lemma SettlingAnswers(s: State)
    requires s.phase.Settling?
    ensures Answered(s, OnSettled(s), s.phase.gate)
    ensures Answered(s, OnStoreError(s, "ENOENT"), s.phase.gate)
  {
    match s.phase.outcome {
      case Delivered(_) => ReplyAnswers(s, s.phase.gate);
      case NotDelivered(reason) => FailAnswers(s, s.phase.gate, reason);
      case DeliveryUnknown(reason) => FailAnswers(s, s.phase.gate, reason);
    }
    FailAnswers(s, s.phase.gate, "ENOENT");
  }

  /** A step of a gated turn goes on with it, or answers it. */
  lemma GateStep(o: Options, staleAfter: int, s: System, e: Event)
    requires Enabled(s, e) && !e.ClientSays? && !e.EveSays?
    ensures var p, p' := s.proxy, Next(o, staleAfter, s, e).proxy;
      if p'.phase.Ready? then Answered(p, p', p.phase.gate) else p' == p.(phase := p'.phase) && p'.phase.gate == p.phase.gate
  {
    match e {
      case ReservationReturns(now, inode) =>
        var (_, reservation) := ReserveAlone(s.dir, GateKey(s), now, staleAfter, inode);
        if !reservation.Reserved? {
          ReservationAnswers(s.proxy, reservation);
        }
      case PublishReturns(_) =>
      case StoreReturns => SettlingAnswers(s.proxy);
    }
  }

  lemma BalancedGate(o: Options, staleAfter: int, s: System, e: Event, key: string)
    requires Enabled(s, e) && !e.ClientSays? && !e.EveSays?
    requires Balanced(s, key) && Balanced(s, s.proxy.phase.gate.requestKey)
    ensures Balanced(Next(o, staleAfter, s, e), key)
  {
    GateStep(o, staleAfter, s, e);
  }

  lemma BalancedStep(o: Options, staleAfter: int, s: System, e: Event, key: string)
    requires Enabled(s, e) && (forall k :: Balanced(s, k))
    requires Registers(o, e, key) ==> key !in s.proxy.requests && !Settles(s, key)
    ensures Balanced(Next(o, staleAfter, s, e), key)
  {
    match e {
      case ClientSays(m) => BalancedClient(o, s, m, key);
      case EveSays(m) => BalancedEve(o, s, m, key);
      case _ => BalancedGate(o, staleAfter, s, e, key);
    }
  }

  lemma {:induction false} BalancedAlways(run: Run, i: nat)
    requires run.Valid() && UniqueIds(run) && i < |run.states|
    ensures forall key :: Balanced(run.states[i], key)
  {
    if i > 0 {
      BalancedAlways(run, i - 1);
      forall key
        ensures Balanced(run.states[i], key)
      {
        RequestsAreOutstanding(run, i - 1, key);
        BalancedStep(run.o, run.staleAfter, run.states[i - 1], run.events[i - 1], key);
      }
    }
  }

  /**
   * Bookkeeping, in every run whose client keeps its ids unique while outstanding: `turns` holds exactly the
   * outstanding session/prompt requests and the one being settled, and nothing is left when all are answered.
   */
  lemma TurnsAreOutstandingPrompts(run: Run, i: nat, key: string)
    requires run.Valid() && UniqueIds(run) && i < |run.states|
    ensures var s := run.states[i];
      && (key in s.proxy.turns <==>
            || (exists r: nat :: AskedAt(run.o, run.events[..i], key, r)
                  && Get(run.events[r].m, "method") == Str("session/prompt"))
            || Settles(s, key))
      && (Settles(s, key) ==> !Outstanding(run.o, run.events[..i], key))
  {
    BalancedAlways(run, i);
    assert Balanced(run.states[i], key);
    RequestsAreOutstanding(run, i, key);
  }

  lemma NothingLeftWhenAllAnswered(run: Run, i: nat)
    requires run.Valid() && UniqueIds(run) && i < |run.states|
    requires !Gating(run.states[i]) && forall key :: !Outstanding(run.o, run.events[..i], key)
    ensures run.states[i].proxy.requests == map[] && run.states[i].proxy.turns == map[]
  {
    forall key
      ensures key !in run.states[i].proxy.requests && key !in run.states[i].proxy.turns
    {
      RequestsAreOutstanding(run, i, key);
      TurnsAreOutstandingPrompts(run, i, key);
    }
  }

  /** A request or notification of eve's own, whatever id it bears, touches no entry and is passed on unchanged. */
  lemma EveRequestsTouchNothing(o: Options, s: State, m: Message)
    requires s.phase.Ready? && Get(m, "method") != Undefined
    ensures var s' := FromEve(o, s, m);
      && s'.requests == s.requests && s'.turns.Keys == s.turns.Keys && s'.phase.Ready?
      && (forall key :: key in s.turns ==>
            s'.turns[key].(text := s.turns[key].text) == s.turns[key]
            && (!HasAgentText(m) ==> s'.turns[key] == s.turns[key]))
      && s'.toClient == s.toClient + [m]
  {
  }

  /**
   * In every run, a response reaches the client with the authored model added exactly when the client's last
   * unanswered request with its id was a session/new, it is no error, and a model is set; otherwise unchanged.
   */
  lemma ModelAddedExactly(run: Run, i: nat)
    requires run.Valid() && i < |run.events|
    requires run.events[i].EveSays? && IsResponse(run.events[i].m)
    ensures var m, relayed := run.events[i].m, Relayed(run.o, run.states[i], run.events[i].m);
      var added :=
        && run.o.modelId != "" && Get(m, "error") == Undefined
        && exists r: nat :: AskedAt(run.o, run.events[..i], KeyForId(Get(m, "id")), r)
             && Get(run.events[r].m, "method") == Str("session/new");
      relayed == if added then m["result" := Obj(Spread(Get(m, "result")) + FixedModelResult(run.o.modelId))] else m
  {
    var key := KeyForId(Get(run.events[i].m, "id"));
    RequestsAreOutstanding(run, i, key);
  }

  /** On its way to eve a message keeps everything but its params. */
  lemma ForwardedKeepsMessage(o: Options, m: Message, name: string)
    requires name != "params"
    ensures Get(Forwarded(o, m), name) == Get(m, name)
    ensures !IsPrompt(m) && !(Get(m, "method") == Str("session/new") && o.target.None?) ==> Forwarded(o, m) == m
  {
  }

  /** A prompt reaches eve with its session and its route, and its own prompt followed by the instruction. */
  lemma ForwardedPromptKeepsRoute(o: Options, m: Message)
    requires IsPrompt(m) && ReadsHeaders(o.lex)
    ensures SessionOf(Forwarded(o, m)) == SessionOf(m)
    ensures NewTurn(o, Forwarded(o, m)).route == NewTurn(o, m).route
    ensures var before, after := Field(Get(m, "params"), "prompt"), Field(Get(Forwarded(o, m), "params"), "prompt");
      after.Arr? && (before.Arr? ==> before.items == after.items[..|after.items| - 1])
  {
    PromptIsNotNew(m);
    assert "sessionId" != "prompt" by {
      assert |"sessionId"| == 9 && |"prompt"| == 6;
    }
    assert Forwarded(o, m) == AddReplySinkInstruction(m);
    InstructionKeepsRoute(o.lex, m);
  }

  lemma PromptIsNotNew(m: Message)
    requires IsPrompt(m)
    ensures Get(m, "method") != Str("session/new")
  {
    assert |"session/prompt"| == 14 && |"session/new"| == 11;
  }

  // ----- streams

  function ForwardedAll(o: Options, events: seq<Event>): seq<Message> {
    if events == [] then []
    else
      var last := events[|events| - 1];
      ForwardedAll(o, events[..|events| - 1])
      + if last.ClientSays? && !IsLocal(o, last.m) then [Forwarded(o, last.m)] else []
  }

  function LocalAnswers(o: Options, events: seq<Event>): seq<Message> {
    if events == [] then []
    else
      var last := events[|events| - 1];
      LocalAnswers(o, events[..|events| - 1])
      + if last.ClientSays? && IsLocal(o, last.m) then [ModelAnswer(o, last.m)] else []
  }

  function EveMessages(events: seq<Event>): seq<Message> {
    if events == [] then []
    else
      var last := events[|events| - 1];
      EveMessages(events[..|events| - 1]) + if last.EveSays? then [last.m] else []
  }

  /** Every element of `zs` is the next of `xs` or the next of `ys`. */
  predicate Interleaves<T(==)>(xs: seq<T>, ys: seq<T>, zs: seq<T>)
    decreases |zs|
  {
    if zs == [] then xs == [] && ys == []
    else
      var front, last := zs[..|zs| - 1], zs[|zs| - 1];
      || (xs != [] && xs[|xs| - 1] == last && Interleaves(xs[..|xs| - 1], ys, front))
      || (ys != [] && ys[|ys| - 1] == last && Interleaves(xs, ys[..|ys| - 1], front))
  }

  lemma InterleavesSnoc<T>(xs: seq<T>, ys: seq<T>, zs: seq<T>, z: T)
    requires Interleaves(xs, ys, zs)
    ensures Interleaves(xs + [z], ys, zs + [z]) && Interleaves(xs, ys + [z], zs + [z])
  {
    assert (zs + [z])[..|zs|] == zs;
    assert (xs + [z])[..|xs|] == xs && (ys + [z])[..|ys|] == ys;
  }

  /** What may become of a message of eve's: itself, a session/new response with the model, or an error. */
  ghost predicate IsImage(o: Options, m: Message, out: Message) {
    || out == m
    || (IsResponse(m) && out == m["result" := Obj(Spread(Get(m, "result")) + FixedModelResult(o.modelId))])
    || (IsResponse(m) && exists detail :: out == ErrorReply(Get(m, "id"), detail))
  }

  /** The client's view of eve's messages up to the one being settled, if any. */
  ghost predicate Conveyed(o: Options, s: System, messages: seq<Message>, images: seq<Message>) {
    && |messages| == |images| + (if Gating(s) then 1 else 0)
    && (forall j :: 0 <= j < |images| ==> IsImage(o, messages[j], images[j]))
    && (Gating(s) ==> HoldsImage(o, s.proxy.phase.gate, messages[|images|]))
  }

  lemma ExtendedIsImage(o: Options, requestMethod: Json, m: Message)
    requires IsResponse(m)
    ensures IsImage(o, m, Extended(o, requestMethod, m)) && Get(Extended(o, requestMethod, m), "id") == Get(m, "id")
  {
    assert "result" != "id";
  }

  /** The client's stream has grown by one image of `m`. */
  ghost predicate Gained(o: Options, before: seq<Message>, m: Message, after: seq<Message>) {
    && |after| == |before| + 1 && after[..|before|] == before
    && IsImage(o, m, after[|before|])
  }

  /** `gate` holds back an image of eve's response `m`. */
  ghost predicate HoldsImage(o: Options, gate: Gate, m: Message) {
    IsResponse(m) && Get(gate.message, "id") == Get(m, "id") && IsImage(o, m, gate.message)
  }

  /** What a step does to the two streams. */
  ghost predicate Moves(o: Options, s: System, e: Event, s': System) {
    && s'.proxy.toEve == s.proxy.toEve + (if e.ClientSays? && !IsLocal(o, e.m) then [Forwarded(o, e.m)] else [])
    && if e.ClientSays? then
         && s'.proxy.phase == s.proxy.phase
         && s'.proxy.toClient == s.proxy.toClient + (if IsLocal(o, e.m) then [ModelAnswer(o, e.m)] else [])
       else if Gating(s') then
         && s'.proxy.toClient == s.proxy.toClient
         && if e.EveSays? then !Gating(s) && HoldsImage(o, s'.proxy.phase.gate, e.m)
            else Gating(s) && s'.proxy.phase.gate == s.proxy.phase.gate
       else if e.EveSays? then !Gating(s) && Gained(o, s.proxy.toClient, e.m, s'.proxy.toClient)
       else
         && Gating(s)
         && forall m :: HoldsImage(o, s.proxy.phase.gate, m) ==> Gained(o, s.proxy.toClient, m, s'.proxy.toClient)
  }

  lemma AnsweredGains(o: Options, s: State, s': State, gate: Gate, m: Message)
    requires Answered(s, s', gate) && HoldsImage(o, gate, m)
    ensures Gained(o, s.toClient, m, s'.toClient)
  {
  }

  lemma MovesEve(o: Options, staleAfter: int, s: System, m: Message)
    requires s.proxy.phase.Ready?
    ensures Moves(o, s, EveSays(m), Next(o, staleAfter, s, EveSays(m)))
  {
    if IsResponse(m) {
      var key := KeyForId(Get(m, "id"));
      ExtendedIsImage(o, if key in s.proxy.requests then s.proxy.requests[key] else Undefined, m);
    }
  }

  lemma MovesGate(o: Options, staleAfter: int, s: System, e: Event)
    requires Enabled(s, e) && !e.ClientSays? && !e.EveSays?
    ensures Moves(o, s, e, Next(o, staleAfter, s, e))
  {
    GateStep(o, staleAfter, s, e);
    var s' := Next(o, staleAfter, s, e);
    forall m | !Gating(s') && HoldsImage(o, s.proxy.phase.gate, m)
      ensures Gained(o, s.proxy.toClient, m, s'.proxy.toClient)
    {
      AnsweredGains(o, s.proxy, s'.proxy, s.proxy.phase.gate, m);
    }
  }

  lemma MovesStep(o: Options, staleAfter: int, s: System, e: Event)
    requires Enabled(s, e)
    ensures Moves(o, s, e, Next(o, staleAfter, s, e))
  {
    match e {
      case ClientSays(m) =>
      case EveSays(m) => MovesEve(o, staleAfter, s, m);
      case _ => MovesGate(o, staleAfter, s, e);
    }
  }

  /**
   * Stream conservation, in every run: eve gets every client message that is not answered locally, once and in
   * order; the client gets the local answers interleaved with one image of each of eve's messages, in eve's
   * order, all but the one being settled.
   */
  lemma {:induction false} StreamsAreConserved(run: Run, i: nat) returns (images: seq<Message>)
    requires run.Valid() && i < |run.states|
    ensures run.states[i].proxy.toEve == ForwardedAll(run.o, run.events[..i])
    ensures Conveyed(run.o, run.states[i], EveMessages(run.events[..i]), images)
    ensures Interleaves(LocalAnswers(run.o, run.events[..i]), images, run.states[i].proxy.toClient)
  {
    if i == 0 {
      images := [];
    } else {
      var before := StreamsAreConserved(run, i - 1);
      assert run.events[..i][..i - 1] == run.events[..i - 1];
      MovesStep(run.o, run.staleAfter, run.states[i - 1], run.events[i - 1]);
      images := StreamsStep(run.o, run.states[i - 1], run.events[i - 1], run.states[i],
        EveMessages(run.events[..i - 1]), LocalAnswers(run.o, run.events[..i - 1]), before);
    }
  }

  lemma StreamsStep(o: Options, s: System, e: Event, s': System,
                    messages: seq<Message>, locals: seq<Message>, before: seq<Message>)
    returns (images: seq<Message>)
    requires Moves(o, s, e, s')
    requires Conveyed(o, s, messages, before) && Interleaves(locals, before, s.proxy.toClient)
    ensures Conveyed(o, s', messages + (if e.EveSays? then [e.m] else []), images)
    ensures Interleaves(locals + (if e.ClientSays? && IsLocal(o, e.m) then [ModelAnswer(o, e.m)] else []),
                        images, s'.proxy.toClient)
  {
    assert messages + [] == messages && locals + [] == locals && s.proxy.toClient + [] == s.proxy.toClient;
    if e.ClientSays? || Gating(s') {
      images := before;
      if e.ClientSays? && IsLocal(o, e.m) {
        InterleavesSnoc(locals, before, s.proxy.toClient, ModelAnswer(o, e.m));
      }
    } else {
      images := StreamsGain(o, s, e, s', messages, locals, before);
    }
  }

  /** A message of eve's, just in or settled, has reached the client. */
  lemma StreamsGain(o: Options, s: System, e: Event, s': System,
                    messages: seq<Message>, locals: seq<Message>, before: seq<Message>)
    returns (images: seq<Message>)
    requires Moves(o, s, e, s') && !e.ClientSays? && !Gating(s')
    requires Conveyed(o, s, messages, before) && Interleaves(locals, before, s.proxy.toClient)
    ensures Conveyed(o, s', messages + (if e.EveSays? then [e.m] else []), images)
    ensures Interleaves(locals, images, s'.proxy.toClient)
  {
    var m := if e.EveSays? then e.m else messages[|before|];
    assert Gained(o, s.proxy.toClient, m, s'.proxy.toClient);
    var out := s'.proxy.toClient[|s.proxy.toClient|];
    images := before + [out];
    assert s'.proxy.toClient == s.proxy.toClient + [out];
    InterleavesSnoc(locals, before, s.proxy.toClient, out);
    assert messages + [] == messages;
  }
}
