/**
 * The proxy between the Buzz client and eve (proxy.ts): the input and output loops over their two shared maps.
 * Code between two awaits is one step; the output loop's awaits are the phases of a gated turn.
 */
module Proxy {
  import opened Json
  import opened BuzzContext
  import opened PublicationFiles

  /** An empty `modelId` stands for an absent one; the code treats both alike. */
  datatype Options = Options(cwd: string, modelId: string, target: Option<string>, lex: Lexer)

  /** A prompt in progress. `sessionId` is a string or `Undefined`. */
  datatype Turn = Turn(cancelled: bool, route: Option<BuzzRoute>, sessionId: Json, text: string)

  /** What the output loop holds on to while it awaits the store or the publisher. */
  datatype Gate = Gate(requestKey: string, message: Message, route: BuzzRoute, text: string)

  /** Where the output loop stands: ready for eve's next message, or awaiting (proxy.ts:179, 197, 205-212). */
  datatype Phase =
    | Ready
    | Reserving(gate: Gate)
    | Publishing(gate: Gate)
    | Settling(gate: Gate, outcome: PublicationOutcome)

  datatype State = State(
    requests: map<string, Json>, turns: map<string, Turn>, phase: Phase,
    toEve: seq<Message>, toClient: seq<Message>)

  const START := State(map[], map[], Ready, [], [])

  function KeyForId(id: Json): string {
    TypeOf(id) + ":" + ToText(id)
  }

  // ----- the authored model (model.ts)

  const EVE_MODEL_CONFIG_ID := "eve.authored_model"

  function FixedModelResult(modelId: string): map<string, Json> {
    var option := Obj(map[
      "type" := Str("select"), "id" := Str(EVE_MODEL_CONFIG_ID), "configId" := Str(EVE_MODEL_CONFIG_ID),
      "name" := Str("Model"), "displayName" := Str("Model"), "category" := Str("model"),
      "currentValue" := Str(modelId),
      "options" := Arr([Obj(map["value" := Str(modelId), "name" := Str(modelId), "displayName" := Str(modelId)])])]);
    map[
      "configOptions" := Arr([option]),
      "models" := Obj(map[
        "currentModelId" := Str(modelId),
        "availableModels" := Arr([Obj(map["modelId" := Str(modelId), "name" := Str(modelId)])])])]
  }

  predicate IsFixedModelRequest(name: Json, params: Json, modelId: string) {
    || (name == Str("session/set_config_option")
        && Field(params, "configId") == Str(EVE_MODEL_CONFIG_ID)
        && Field(params, "value") == Str(modelId))
    || (name == Str("session/set_model") && Field(params, "modelId") == Str(modelId))
  }

  // ----- reading messages

  predicate IsRequest(m: Message) {
    Get(m, "id") != Undefined && Get(m, "method") != Undefined
  }

  predicate IsResponse(m: Message) {
    Get(m, "id") != Undefined && Get(m, "method") == Undefined
  }

  predicate IsLocal(o: Options, m: Message) {
    IsRequest(m) && o.modelId != "" && IsFixedModelRequest(Get(m, "method"), Get(m, "params"), o.modelId)
  }

  predicate IsPrompt(m: Message) {
    Get(m, "method") == Str("session/prompt") && Get(m, "id") != Undefined
  }

  predicate IsCancel(m: Message) {
    Get(m, "method") == Str("session/cancel") && SessionOf(m).Str?
  }

  function SessionOf(m: Message): Json {
    Field(Get(m, "params"), "sessionId")
  }

  predicate IsAgentTextUpdate(update: Json) {
    && Field(update, "sessionUpdate") == Str("agent_message_chunk")
    && Field(Field(update, "content"), "type") == Str("text")
    && Field(Field(update, "content"), "text").Str?
  }

  /** The agent text a message from eve carries. */
  predicate HasAgentText(m: Message) {
    Get(m, "method") == Str("session/update") && IsAgentTextUpdate(Field(Get(m, "params"), "update"))
  }

  function AgentText(m: Message): string
    requires HasAgentText(m)
  {
    Field(Field(Field(Get(m, "params"), "update"), "content"), "text").s
  }

  predicate IsCompleted(m: Message) {
    Get(m, "error") == Undefined && Field(Get(m, "result"), "stopReason") == Str("end_turn")
  }

  // ----- client to eve

  function ModelAnswer(o: Options, m: Message): Message {
    map["jsonrpc" := Str("2.0"), "id" := Get(m, "id"), "result" := Obj(FixedModelResult(o.modelId))]
  }

  /** The message as it is sent on to eve. */
  function Forwarded(o: Options, m: Message): Message {
    var rooted :=
      if Get(m, "method") == Str("session/new") && o.target.None? then
        m["params" := Obj(Spread(Get(m, "params"))["cwd" := Str(o.cwd)])]
      else m;
    if IsPrompt(m) then AddReplySinkInstruction(rooted) else rooted
  }

  function NewTurn(o: Options, m: Message): Turn {
    Turn(
      false,
      ParseBuzzRoute(o.lex, Field(Get(m, "params"), "prompt")),
      if SessionOf(m).Str? then SessionOf(m) else Undefined,
      "")
  }

  function CancelledTurn(turn: Turn, sessionId: Json): Turn {
    if turn.sessionId == sessionId then turn.(cancelled := true) else turn
  }

  function Cancelled(turns: map<string, Turn>, sessionId: Json): map<string, Turn> {
    map k | k in turns :: CancelledTurn(turns[k], sessionId)
  }

  /** A prompt opens a turn; a cancellation marks the turns of its session. */
  function TurnsAfterClient(o: Options, turns: map<string, Turn>, m: Message): map<string, Turn> {
    var registered := if IsPrompt(m) then turns[KeyForId(Get(m, "id")) := NewTurn(o, m)] else turns;
    if IsCancel(m) then Cancelled(registered, SessionOf(m)) else registered
  }

  function RequestsAfterClient(requests: map<string, Json>, m: Message): map<string, Json> {
    if IsRequest(m) then requests[KeyForId(Get(m, "id")) := Get(m, "method")] else requests
  }

  function FromClient(o: Options, s: State, m: Message): State {
    if IsLocal(o, m) then s.(toClient := s.toClient + [ModelAnswer(o, m)])
    else s.(
      requests := RequestsAfterClient(s.requests, m),
      turns := TurnsAfterClient(o, s.turns, m),
      toEve := s.toEve + [Forwarded(o, m)])
  }

  // ----- eve to client

  function ToldTurn(turn: Turn, sessionId: Json, text: string): Turn {
    if turn.sessionId == sessionId then turn.(text := turn.text + text) else turn
  }

  function Told(turns: map<string, Turn>, sessionId: Json, text: string): map<string, Turn> {
    map k | k in turns :: ToldTurn(turns[k], sessionId, text)
  }

  function ErrorReply(id: Json, detail: string): Message {
    map[
      "jsonrpc" := Str("2.0"), "id" := id,
      "error" := Obj(map["code" := Num("-32603"), "message" := Str("Buzz reply publication failed: " + detail)])]
  }

  /** eve's response as the client sees it when nothing goes wrong. */
  function Extended(o: Options, requestMethod: Json, m: Message): Message {
    if requestMethod == Str("session/new") && Get(m, "error") == Undefined && o.modelId != "" then
      m["result" := Obj(Spread(Get(m, "result")) + FixedModelResult(o.modelId))]
    else m
  }

  const NO_ROUTE := "Buzz prompt did not contain a valid [Context] route"
  const PREVIOUS_UNKNOWN :=
    "A previous Buzz publication has unknown delivery status; refusing an automatic retry"
  const BEING_PUBLISHED := "A Buzz reply for this event is already being published"

  function Reply(s: State, requestKey: string, m: Message): State {
    s.(turns := s.turns - {requestKey}, toClient := s.toClient + [m], phase := Ready)
  }

  /** The response is dealt with at once: there is no turn to gate, or nothing of it to publish. */
  predicate PassesUngated(turns: map<string, Turn>, key: string, m: Message) {
    key !in turns || !IsCompleted(m) || turns[key].cancelled || Trim(turns[key].text) == ""
  }

  /** The turn's answer, if it has one to publish, is held back until it is published. */
  function Gated(s: State, key: string, m: Message): State {
    if PassesUngated(s.turns, key, m) then Reply(s, key, m)
    else match s.turns[key].route
      case None => Reply(s, key, ErrorReply(Get(m, "id"), NO_ROUTE))
      case Some(route) => s.(phase := Reserving(Gate(key, m, route, Trim(s.turns[key].text))))
  }

  /** eve's answer to the request with this key has arrived. */
  function Answer(o: Options, s: State, key: string, m: Message): State {
    var requestMethod := if key in s.requests then s.requests[key] else Undefined;
    Gated(s.(requests := s.requests - {key}), key, Extended(o, requestMethod, m))
  }

  function FromEve(o: Options, s: State, m: Message): State
    requires s.phase.Ready?
  {
    if IsResponse(m) then Answer(o, s, KeyForId(Get(m, "id")), m)
    else s.(
      turns := if HasAgentText(m) then Told(s.turns, SessionOf(m), AgentText(m)) else s.turns,
      toClient := s.toClient + [m])
  }

  function Fail(s: State, gate: Gate, detail: string): State {
    Reply(s, gate.requestKey, ErrorReply(Get(gate.message, "id"), detail))
  }

  /** The awaited store operation threw. */
  function OnStoreError(s: State, detail: string): State
    requires s.phase.Reserving? || s.phase.Settling?
  {
    Fail(s, s.phase.gate, detail)
  }

  function OnReservation(s: State, reservation: Reservation): State
    requires s.phase.Reserving?
  {
    var gate := s.phase.gate;
    match reservation
    case AlreadyPublished => Reply(s, gate.requestKey, gate.message)
    case PreviouslyUnknown => Fail(s, gate, PREVIOUS_UNKNOWN)
    case Busy => Fail(s, gate, BEING_PUBLISHED)
    case Reserved => s.(phase := Publishing(gate))
  }

  function OnOutcome(s: State, outcome: PublicationOutcome): State
    requires s.phase.Publishing?
  {
    s.(phase := Settling(s.phase.gate, outcome))
  }

  function OnSettled(s: State): State
    requires s.phase.Settling?
  {
    match s.phase.outcome
    case Delivered(_) => Reply(s, s.phase.gate.requestKey, s.phase.gate.message)
    case NotDelivered(reason) => Fail(s, s.phase.gate, reason)
    case DeliveryUnknown(reason) => Fail(s, s.phase.gate, reason)
  }

  /** A string, number, null or boolean id: what JSON-RPC allows, and booleans. */
  predicate IsScalar(id: Json) {
    id.Str? || id.Num? || id.Null? || id.Bool?
  }

  /** Ids of different types or values never share a bookkeeping key. */
  lemma KeyForIdInjective(a: Json, b: Json)
    requires IsScalar(a) && IsScalar(b)
    ensures KeyForId(a) == KeyForId(b) <==> a == b
  {
    if KeyForId(a) == KeyForId(b) {
      assert KeyForId(a)[0] == TypeOf(a)[0] && KeyForId(b)[0] == TypeOf(b)[0];
      assert KeyForId(a)[|TypeOf(a)| + 1..] == ToText(a) && KeyForId(b)[|TypeOf(b)| + 1..] == ToText(b);
    }
  }

  // ----- the code itself

  class ActiveTurn {
    var cancelled: bool
    const route: Option<BuzzRoute>
    const sessionId: Json
    var text: string

    constructor (route: Option<BuzzRoute>, sessionId: Json)
      ensures Value() == Turn(false, route, sessionId, "")
    {
      cancelled := false;
      this.route := route;
      this.sessionId := sessionId;
      text := "";
    }

    ghost function Value(): Turn
      reads this
    {
      Turn(cancelled, route, sessionId, text)
    }

    method Cancel()
      modifies this
      ensures Value() == old(Value()).(cancelled := true)
    {
      cancelled := true;
    }

    method Append(more: string)
      modifies this
      ensures Value() == old(Value()).(text := old(text) + more)
    {
      text := text + more;
    }
  }

  ghost predicate Distinct(turns: map<string, ActiveTurn>) {
    forall j, k :: j in turns && k in turns && j != k ==> turns[j] != turns[k]
  }

  ghost function Values(turns: map<string, ActiveTurn>): map<string, Turn>
    reads turns.Values
  {
    map k | k in turns :: turns[k].Value()
  }

  class AcpProxy {
    const options: Options
    var requests: map<string, Json>
    var turns: map<string, ActiveTurn>
    var phase: Phase
    var toEve: seq<Message>
    var toClient: seq<Message>

    ghost predicate Valid()
      reads this
    {
      Distinct(turns)
    }

    ghost function Seen(): State
      reads this, turns.Values
    {
      State(requests, Values(turns), phase, toEve, toClient)
    }

    constructor (options: Options)
      ensures Valid() && Seen() == START && this.options == options
    {
      this.options := options;
      requests, turns, phase, toEve, toClient := map[], map[], Ready, [], [];
    }

    method CancelOne(key: string, sessionId: Json)
      requires Valid() && key in turns
      modifies turns[key]
      ensures turns[key].Value() == CancelledTurn(old(turns[key].Value()), sessionId)
      ensures forall k :: k in turns && k != key ==> turns[k].Value() == old(turns[k].Value())
    {
      assert forall k :: k in turns && k != key ==> turns[k] != turns[key];
      if turns[key].sessionId == sessionId {
        turns[key].Cancel();
      }
    }

    /** Marks every turn of the session cancelled. */
    method CancelSession(sessionId: Json)
      requires Valid()
      modifies turns.Values
      ensures Values(turns) == Cancelled(old(Values(turns)), sessionId)
    {
      ghost var before := Values(turns);
      var rest := turns.Keys;
      while rest != {}
        invariant rest <= turns.Keys
        invariant forall k :: k in rest ==> turns[k].Value() == before[k]
        invariant forall k :: k in turns && k !in rest ==> turns[k].Value() == CancelledTurn(before[k], sessionId)
        decreases rest
      {
        var key :| key in rest;
        CancelOne(key, sessionId);
        rest := rest - {key};
      }
    }

    method AppendOne(key: string, sessionId: Json, text: string)
      requires Valid() && key in turns
      modifies turns[key]
      ensures turns[key].Value() == ToldTurn(old(turns[key].Value()), sessionId, text)
      ensures forall k :: k in turns && k != key ==> turns[k].Value() == old(turns[k].Value())
    {
      assert forall k :: k in turns && k != key ==> turns[k] != turns[key];
      if turns[key].sessionId == sessionId {
        turns[key].Append(text);
      }
    }

    /** Adds a chunk of text to every turn of the session. */
    method AppendText(sessionId: Json, text: string)
      requires Valid()
      modifies turns.Values
      ensures Values(turns) == Told(old(Values(turns)), sessionId, text)
    {
      ghost var before := Values(turns);
      var rest := turns.Keys;
      while rest != {}
        invariant rest <= turns.Keys
        invariant forall k :: k in rest ==> turns[k].Value() == before[k]
        invariant forall k :: k in turns && k !in rest ==> turns[k].Value() == ToldTurn(before[k], sessionId, text)
        decreases rest
      {
        var key :| key in rest;
        AppendOne(key, sessionId, text);
        rest := rest - {key};
      }
    }

    method Outgoing(message: Message) returns (outgoing: Message)
      ensures outgoing == Forwarded(options, message)
    {
      outgoing := message;
      if Get(message, "method") == Str("session/new") && options.target.None? {
        outgoing := message["params" := Obj(Spread(Get(message, "params"))["cwd" := Str(options.cwd)])];
      }
      if Get(message, "method") == Str("session/prompt") && Get(message, "id") != Undefined {
        outgoing := AddReplySinkInstruction(outgoing);
      }
    }

    method AnswerLocally(message: Message)
      requires Valid() && IsLocal(options, message)
      modifies this`toClient
      ensures Seen() == FromClient(options, old(Seen()), message)
    {
      toClient := toClient + [ModelAnswer(options, message)];
    }

    /** One round of the input loop. */
    method HandleClientMessage(message: Message)
      requires Valid()
      modifies this, turns.Values
      ensures Valid() && Seen() == FromClient(options, old(Seen()), message)
      ensures fresh(turns.Values - old(turns.Values))
    {
      if IsLocal(options, message) {
        AnswerLocally(message);
        return;
      }
      Relay(message);
    }

    /** What the input loop does with a message that goes on to eve. */
    method Relay(message: Message)
      requires Valid()
      modifies this`requests, this`turns, this`toEve, turns.Values
      ensures Valid() && fresh(turns.Values - old(turns.Values))
      ensures requests == RequestsAfterClient(old(requests), message)
      ensures Values(turns) == TurnsAfterClient(options, old(Values(turns)), message)
      ensures toEve == old(toEve) + [Forwarded(options, message)]
    {
      TrackRequest(message);
      TrackTurns(message);
      Forward(message);
    }

    method Forward(message: Message)
      modifies this`toEve
      ensures toEve == old(toEve) + [Forwarded(options, message)]
    {
      var outgoing := Outgoing(message);
      toEve := toEve + [outgoing];
    }

    method TrackRequest(message: Message)
      modifies this`requests
      ensures requests == RequestsAfterClient(old(requests), message)
    {
      if IsRequest(message) {
        requests := requests[KeyForId(Get(message, "id")) := Get(message, "method")];
      }
    }

    method TrackTurns(message: Message)
      requires Valid()
      modifies this`turns, turns.Values
      ensures Valid() && fresh(turns.Values - old(turns.Values))
      ensures Values(turns) == TurnsAfterClient(options, old(Values(turns)), message)
    {
      if IsPrompt(message) {
        RegisterTurn(message);
      }
      if IsCancel(message) {
        CancelSession(SessionOf(message));
      }
    }

    method RegisterTurn(message: Message)
      requires Valid() && IsPrompt(message)
      modifies this`turns
      ensures Valid() && fresh(turns.Values - old(turns.Values))
      ensures Values(turns) == old(Values(turns))[KeyForId(Get(message, "id")) := NewTurn(options, message)]
      ensures KeyForId(Get(message, "id")) in turns
      ensures var params, turn := Get(message, "params"), turns[KeyForId(Get(message, "id"))].Value();
        && !turn.cancelled && turn.text == ""
        && turn.sessionId == (if Field(params, "sessionId").Str? then Field(params, "sessionId") else Undefined)
        && turn.route == ParseBuzzRoute(options.lex, Field(params, "prompt"))
    {
      var sessionId := SessionOf(message);
      var turn := new ActiveTurn(
        ParseBuzzRoute(options.lex, Field(Get(message, "params"), "prompt")),
        if sessionId.Str? then sessionId else Undefined);
      turns := turns[KeyForId(Get(message, "id")) := turn];
    }

    method Send(requestKey: string, message: Message)
      requires Valid()
      modifies this
      ensures Valid() && Seen() == Reply(old(Seen()), requestKey, message)
      ensures turns.Values <= old(turns.Values)
    {
      turns := turns - {requestKey};
      toClient := toClient + [message];
      phase := Ready;
    }

    /** One round of the output loop, up to its end or its first await. */
    method HandleEveMessage(incoming: Message)
      requires Valid() && phase.Ready?
      modifies this, turns.Values
      ensures Valid() && Seen() == FromEve(options, old(Seen()), incoming)
      ensures turns.Values <= old(turns.Values)
    {
      if HasAgentText(incoming) {
        AppendText(SessionOf(incoming), AgentText(incoming));
      }
      if Get(incoming, "id") == Undefined || Get(incoming, "method") != Undefined {
        toClient := toClient + [incoming];
        return;
      }
      HandleResponse(incoming, KeyForId(Get(incoming, "id")));
    }

    method HandleResponse(incoming: Message, requestKey: string)
      requires Valid() && phase.Ready?
      modifies this
      ensures Valid() && Seen() == Answer(options, old(Seen()), requestKey, incoming)
      ensures turns.Values <= old(turns.Values)
    {
      var requestMethod := if requestKey in requests then requests[requestKey] else Undefined;
      requests := requests - {requestKey};
      GateTurn(requestKey, Extended(options, requestMethod, incoming));
    }

    method GateTurn(requestKey: string, message: Message)
      requires Valid() && phase.Ready?
      modifies this
      ensures Valid() && Seen() == Gated(old(Seen()), requestKey, message)
      ensures turns.Values <= old(turns.Values)
    {
      if requestKey !in turns {
        toClient := toClient + [message];
        assert Values(turns) - {requestKey} == Values(turns);
        return;
      }
      var turn := turns[requestKey];
      var text := Trim(turn.text);
      if !IsCompleted(message) || turn.cancelled || text == "" {
        Send(requestKey, message);
      } else if turn.route.None? {
        Send(requestKey, ErrorReply(Get(message, "id"), NO_ROUTE));
      } else {
        phase := Reserving(Gate(requestKey, message, turn.route.value, text));
      }
    }

    /** The output loop resumes with what `reservePublication` returned or threw. */
    method ResumeReserved(reservation: Reservation)
      requires Valid() && phase.Reserving?
      modifies this
      ensures Valid() && Seen() == OnReservation(old(Seen()), reservation)
      ensures turns.Values <= old(turns.Values)
    {
      var gate := phase.gate;
      match reservation {
        case AlreadyPublished => Send(gate.requestKey, gate.message);
        case PreviouslyUnknown => Send(gate.requestKey, ErrorReply(Get(gate.message, "id"), PREVIOUS_UNKNOWN));
        case Busy => Send(gate.requestKey, ErrorReply(Get(gate.message, "id"), BEING_PUBLISHED));
        case Reserved => phase := Publishing(gate);
      }
    }

    method ResumeWithError(detail: string)
      requires Valid() && (phase.Reserving? || phase.Settling?)
      modifies this
      ensures Valid() && Seen() == OnStoreError(old(Seen()), detail)
      ensures phase.Ready? && old(phase).gate.requestKey !in turns
      ensures toClient == old(toClient) + [ErrorReply(Get(old(phase).gate.message, "id"), detail)]
      ensures turns.Values <= old(turns.Values)
    {
      Send(phase.gate.requestKey, ErrorReply(Get(phase.gate.message, "id"), detail));
    }

    /** The output loop resumes with the publish call's outcome and goes on to settle its reservation. */
    method ResumePublished(outcome: PublicationOutcome)
      requires Valid() && phase.Publishing?
      modifies this`phase
      ensures Valid() && Seen() == OnOutcome(old(Seen()), outcome)
    {
      phase := Settling(phase.gate, outcome);
    }

    /** The output loop resumes once the reservation is committed, marked unknown or released. */
    method ResumeSettled()
      requires Valid() && phase.Settling?
      modifies this
      ensures Valid() && Seen() == OnSettled(old(Seen()))
      ensures turns.Values <= old(turns.Values)
    {
      var gate := phase.gate;
      match phase.outcome {
        case Delivered(_) => Send(gate.requestKey, gate.message);
        case NotDelivered(reason) => Send(gate.requestKey, ErrorReply(Get(gate.message, "id"), reason));
        case DeliveryUnknown(reason) => Send(gate.requestKey, ErrorReply(Get(gate.message, "id"), reason));
      }
    }
  }
}
