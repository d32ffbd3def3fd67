/** What the proxy's maps and streams hold, in terms of nothing but the messages that have passed through it. */
module ProxyHistory {
  import opened Json
  import opened BuzzContext
  import opened Proxy
  import opened ProxyRuns

  // ----- turns

  predicate Opens(e: Event, key: string) {
    e.ClientSays? && IsPrompt(e.m) && KeyForId(Get(e.m, "id")) == key
  }

  /** The client's last prompt with this key is event `r`. */
  predicate OpenedAt(events: seq<Event>, key: string, r: nat) {
    && r < |events| && Opens(events[r], key)
    && forall j :: r < j < |events| ==> !Opens(events[j], key)
  }

  /** A session/cancel of the client's for this session. */
  predicate Cancels(e: Event, sessionId: Json) {
    && e.ClientSays? && Get(e.m, "method") == Str("session/cancel")
    && sessionId.Str? && Field(Get(e.m, "params"), "sessionId") == sessionId
  }

  predicate CancelledIn(events: seq<Event>, sessionId: Json) {
    exists i :: 0 <= i < |events| && Cancels(events[i], sessionId)
  }

  predicate Speaks(e: Event, sessionId: Json) {
    e.EveSays? && HasAgentText(e.m) && Field(Get(e.m, "params"), "sessionId") == sessionId
  }

  /** The agent text of the session, in the order in which eve's messages were processed. */
  function SpokenIn(events: seq<Event>, sessionId: Json): string {
    if events == [] then ""
    else
      var last := events[|events| - 1];
      SpokenIn(events[..|events| - 1], sessionId) + if Speaks(last, sessionId) then AgentText(last.m) else ""
  }

  /** The session a prompt names; one that is not a string counts as absent. */
  function PromptSession(prompt: Message): Json {
    var sessionId := Field(Get(prompt, "params"), "sessionId");
    if sessionId.Str? then sessionId else Undefined
  }

  /** The route that a prompt's own blocks give it. */
  function PromptRoute(o: Options, prompt: Message): Option<BuzzRoute> {
    ParseBuzzRoute(o.lex, Field(Get(prompt, "params"), "prompt"))
  }

  /** The turn that a prompt opened, after the events that have followed. */
  ghost function TurnSince(o: Options, prompt: Message, later: seq<Event>): Turn {
    var sessionId := PromptSession(prompt);
    Turn(CancelledIn(later, sessionId), PromptRoute(o, prompt), sessionId, SpokenIn(later, sessionId))
  }

  /** What an event makes of a turn it does not open. */
  function TurnAfter(turn: Turn, e: Event): Turn {
    if e.ClientSays? && IsCancel(e.m) then CancelledTurn(turn, SessionOf(e.m))
    else if e.EveSays? && HasAgentText(e.m) then ToldTurn(turn, SessionOf(e.m), AgentText(e.m))
    else turn
  }

  lemma NamesDiffer(m: Message)
    ensures !(IsPrompt(m) && IsCancel(m))
    ensures IsPrompt(m) || IsCancel(m) ==> Get(m, "method") != Str("session/set_model")
    ensures IsPrompt(m) || IsCancel(m) ==> Get(m, "method") != Str("session/set_config_option")
  {
    assert |"session/prompt"| == 14 && |"session/cancel"| == 14 && |"session/set_model"| == 17;
    assert |"session/set_config_option"| == 25;
    assert "session/prompt"[8] != "session/cancel"[8];
  }

  lemma PromptsAndCancelsTravel(o: Options, m: Message)
    requires IsPrompt(m) || IsCancel(m)
    ensures !IsLocal(o, m)
  {
    NamesDiffer(m);
  }

  lemma TurnsAfterClientMessage(o: Options, s: State, m: Message, key: string)
    requires key in FromClient(o, s, m).turns
    ensures var turn := FromClient(o, s, m).turns[key];
      if Opens(ClientSays(m), key) then turn == NewTurn(o, m)
      else key in s.turns && turn == TurnAfter(s.turns[key], ClientSays(m))
  {
    NamesDiffer(m);
    if IsPrompt(m) || IsCancel(m) {
      PromptsAndCancelsTravel(o, m);
    }
  }

  lemma TurnsAfterEveMessage(o: Options, s: State, m: Message, key: string)
    requires s.phase.Ready? && key in FromEve(o, s, m).turns
    ensures key in s.turns && FromEve(o, s, m).turns[key] == TurnAfter(s.turns[key], EveSays(m))
  {
  }

  lemma TurnsStep(o: Options, staleAfter: int, s: System, e: Event, key: string)
    requires Enabled(s, e) && key in Next(o, staleAfter, s, e).proxy.turns
    ensures var turn := Next(o, staleAfter, s, e).proxy.turns[key];
      if Opens(e, key) then turn == NewTurn(o, e.m)
      else key in s.proxy.turns && turn == TurnAfter(s.proxy.turns[key], e)
  {
    match e {
      case ClientSays(m) => TurnsAfterClientMessage(o, s.proxy, m, key);
      case EveSays(m) => TurnsAfterEveMessage(o, s.proxy, m, key);
      case _ =>
    }
  }

  lemma HistorySnoc(o: Options, prompt: Message, later: seq<Event>, e: Event)
    ensures TurnSince(o, prompt, later + [e]) == TurnAfter(TurnSince(o, prompt, later), e)
  {
    var sessionId := PromptSession(prompt);
    assert (later + [e])[..|later|] == later;
    if CancelledIn(later, sessionId) {
      var i :| 0 <= i < |later| && Cancels(later[i], sessionId);
      assert Cancels((later + [e])[i], sessionId);
    }
    if Cancels(e, sessionId) {
      assert Cancels((later + [e])[|later|], sessionId);
    }
    if CancelledIn(later + [e], sessionId) && !Cancels(e, sessionId) {
      var i :| 0 <= i < |later + [e]| && Cancels((later + [e])[i], sessionId);
      assert Cancels(later[i], sessionId);
    }
  }

  ghost predicate TurnsFollowAt(o: Options, before: map<string, Turn>, e: Event, after: map<string, Turn>) {
    forall key :: key in after ==>
      if Opens(e, key) then after[key] == NewTurn(o, e.m)
      else key in before && after[key] == TurnAfter(before[key], e)
  }

  /** The turn map before and after each event, as the steps of a run change it. */
  ghost predicate TurnsFollow(o: Options, turns: seq<map<string, Turn>>, events: seq<Event>) {
    && |turns| == |events| + 1
    && turns[0] == map[]
    && forall i :: 0 <= i < |events| ==> TurnsFollowAt(o, turns[i], events[i], turns[i + 1])
  }

  function TurnMaps(states: seq<System>): (turns: seq<map<string, Turn>>)
    ensures |turns| == |states|
    ensures forall i :: 0 <= i < |states| ==> turns[i] == states[i].proxy.turns
  {
    if states == [] then [] else [states[0].proxy.turns] + TurnMaps(states[1..])
  }

  lemma RunsFollow(run: Run)
    requires run.Valid()
    ensures TurnsFollow(run.o, TurnMaps(run.states), run.events)
  {
    forall i | 0 <= i < |run.events|
      ensures TurnsFollowAt(run.o, run.states[i].proxy.turns, run.events[i], run.states[i + 1].proxy.turns)
    {
      forall key | key in run.states[i + 1].proxy.turns
        ensures var turn := run.states[i + 1].proxy.turns[key];
          if Opens(run.events[i], key) then turn == NewTurn(run.o, run.events[i].m)
          else key in run.states[i].proxy.turns && turn == TurnAfter(run.states[i].proxy.turns[key], run.events[i])
      {
        TurnsStep(run.o, run.staleAfter, run.states[i], run.events[i], key);
      }
    }
  }

  lemma {:induction false} HistoryOfTurn(
    o: Options, turns: seq<map<string, Turn>>, events: seq<Event>, i: nat, key: string) returns (r: nat)
    requires TurnsFollow(o, turns, events) && i < |turns| && key in turns[i]
    ensures OpenedAt(events[..i], key, r)
    ensures turns[i][key] == TurnSince(o, events[r].m, events[r + 1..i])
  {
    assert TurnsFollowAt(o, turns[i - 1], events[i - 1], turns[i]);
    if Opens(events[i - 1], key) {
      r := i - 1;
      JustOpened(o, events, i, key);
    } else {
      r := HistoryOfTurn(o, turns, events, i - 1, key);
      StillOpen(events, i, key, r);
      HistorySnoc(o, events[r].m, events[r + 1..i - 1], events[i - 1]);
    }
  }

  /**
   * Text fidelity and exact cancellation, in every run: a turn in the map was opened by the client's last prompt
   * with its key, its route is that prompt's, its text is the in-order concatenation of the agent text eve has
   * sent for its session since, and it is cancelled exactly if a session/cancel for its session has come since.
   */
  lemma TurnsTellHistory(run: Run, i: nat, key: string) returns (r: nat)
    requires run.Valid() && i < |run.states| && key in run.states[i].proxy.turns
    ensures OpenedAt(run.events[..i], key, r)
    ensures run.states[i].proxy.turns[key] == TurnSince(run.o, run.events[r].m, run.events[r + 1..i])
  {
    RunsFollow(run);
    r := HistoryOfTurn(run.o, TurnMaps(run.states), run.events, i, key);
  }

  lemma JustOpened(o: Options, events: seq<Event>, i: nat, key: string)
    requires 0 < i <= |events| && Opens(events[i - 1], key)
    ensures OpenedAt(events[..i], key, i - 1)
    ensures TurnSince(o, events[i - 1].m, events[i..i]) == NewTurn(o, events[i - 1].m)
  {
    assert events[i..i] == [];
  }

  lemma StillOpen(events: seq<Event>, i: nat, key: string, r: nat)
    requires 0 < i <= |events| && OpenedAt(events[..i - 1], key, r) && !Opens(events[i - 1], key)
    ensures OpenedAt(events[..i], key, r)
    ensures events[r + 1..i] == events[r + 1..i - 1] + [events[i - 1]]
  {
    forall j | r < j < i
      ensures !Opens(events[..i][j], key)
    {
      if j < i - 1 {
        assert events[..i - 1][j] == events[j];
      }
    }
  }

  // ----- which responses are gated

  /** eve's response to a request of the client, as the proxy would pass it on. */
  function Relayed(o: Options, s: System, m: Message): Message {
    var key := KeyForId(Get(m, "id"));
    Extended(o, if key in s.proxy.requests then s.proxy.requests[key] else Undefined, m)
  }

  /**
   * Every response to a turn in the map is gated on a publication exactly when it completes the turn, no cancel
   * for the turn's session has come since the prompt, and the session has since said something that is not blank;
   * what will be published is that text, trimmed, to the prompt's own route.
   */
  lemma GatedExactly(run: Run, i: nat) returns (r: nat)
    requires run.Valid() && i < |run.events|
    requires run.events[i].EveSays? && IsResponse(run.events[i].m)
    requires KeyForId(Get(run.events[i].m, "id")) in run.states[i].proxy.turns
    ensures
      var m, s, s' := run.events[i].m, run.states[i].proxy, run.states[i + 1].proxy;
      var key, message := KeyForId(Get(m, "id")), Relayed(run.o, run.states[i], m);
      && OpenedAt(run.events[..i], key, r)
      && var prompt, since := run.events[r].m, run.events[r + 1..i];
      var route, text := PromptRoute(run.o, prompt), Trim(SpokenIn(since, PromptSession(prompt)));
      if !IsCompleted(message) || CancelledIn(since, PromptSession(prompt)) || text == "" then
        s'.phase.Ready? && s'.toClient == s.toClient + [message]
      else if route.None? then
        s'.phase.Ready? && s'.toClient == s.toClient + [ErrorReply(Get(message, "id"), NO_ROUTE)]
      else
        s'.phase == Reserving(Gate(key, message, route.value, text)) && s'.toClient == s.toClient
    ensures run.states[i + 1].dir == run.states[i].dir && run.states[i + 1].log == run.states[i].log
  {
    r := TurnsTellHistory(run, i, KeyForId(Get(run.events[i].m, "id")));
  }

  /**
   * Cancel safety: once a session/cancel has been processed for the session that prompt `p` names, while its turn
   * is registered, that turn's response, whenever it is processed, goes straight to the client and nothing is
   * published for it.
   */
  lemma CancelledTurnsAreNotPublished(run: Run, p: nat, c: nat, i: nat, key: string)
    requires run.Valid() && c < i < |run.events|
    requires key in run.states[c].proxy.turns && OpenedAt(run.events[..c], key, p)
    requires Cancels(run.events[c], Field(Get(run.events[p].m, "params"), "sessionId"))
    requires forall j :: c < j < i ==> !Opens(run.events[j], key)
    requires run.events[i].EveSays? && IsResponse(run.events[i].m) && KeyForId(Get(run.events[i].m, "id")) == key
    requires key in run.states[i].proxy.turns
    ensures var s, s' := run.states[i], run.states[i + 1];
      && s'.proxy.phase.Ready? && key !in s'.proxy.turns
      && s'.proxy.toClient == s.proxy.toClient + [Relayed(run.o, s, run.events[i].m)]
      && s'.log == s.log && s'.dir == s.dir
  {
    var r := GatedExactly(run, i);
    NamesDiffer(run.events[c].m);
    OpenedEarlier(run, c, i, key, p, r);
    assert Cancels(run.events[r + 1..i][c - r - 1], PromptSession(run.events[r].m));
  }

  lemma OpenedEarlier(run: Run, c: nat, i: nat, key: string, before: nat, r: nat)
    requires c < i <= |run.events|
    requires OpenedAt(run.events[..c], key, before) && OpenedAt(run.events[..i], key, r)
    requires !Opens(run.events[c], key) && forall j :: c < j < i ==> !Opens(run.events[j], key)
    ensures r == before
  {
    assert run.events[..i][before] == run.events[..c][before];
    if r < c {
      assert run.events[..c][r] == run.events[..i][r];
    }
  }
}
