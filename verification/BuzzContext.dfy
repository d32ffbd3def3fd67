/** Which Buzz event a prompt's reply belongs to (buzz-context.ts), over classified lines. */
module BuzzContext {
  import opened Json

  /** What the patterns of buzz-context.ts make of one line of a text block. */
  datatype Shape =
    | ContextHeader
    | SingleHeader                      // "[Buzz event: ...]"
    | NewSingleHeader                   // "[New message ...]", "[New request ...]"
    | BatchHeader(count: nat)           // "[Buzz events - n events]" and its two variants
    | EventHeader(digits: seq<Digit>)   // "--- Event n (...) ---"
    | EventId(id: string)               // "Event ID: <64 hex digits>"
    | Channel(channelId: Option<string>) // "Channel: ...", with the id it carries if any
    | Blank
    | Body

  type Digit = d: nat | d < 10

  datatype Line = Line(shape: Shape, replyTo: Option<string>)

  /** The line classifier: splits a block's text at newlines and classifies every line. */
  type Lexer = string -> seq<Line>

  datatype BuzzRoute = BuzzRoute(channelId: string, triggeringEventId: string, replyTo: Option<string>)

  const MAX_SAFE_INTEGER := 9007199254740991

  function NumberOf(digits: seq<Digit>): nat {
    if digits == [] then 0 else NumberOf(digits[..|digits| - 1]) * 10 + digits[|digits| - 1]
  }

  function TextBlocks(prompt: Json): seq<string> {
    if prompt.Arr? then TextsOf(prompt.items) else []
  }

  function TextsOf(items: seq<Json>): seq<string> {
    if items == [] then []
    else
      var text := Field(items[0], "text");
      (if Field(items[0], "type") == Str("text") && text.Str? then [text.s] else []) + TextsOf(items[1..])
  }

  function Blocks(lex: Lexer, texts: seq<string>): seq<seq<Line>> {
    seq(|texts|, i requires 0 <= i < |texts| => lex(texts[i]))
  }

  predicate IsContext(block: seq<Line>) {
    block != [] && block[0].shape.ContextHeader?
  }

  function Contexts(blocks: seq<seq<Line>>): seq<seq<Line>> {
    if blocks == [] then []
    else (if IsContext(blocks[0]) then [blocks[0]] else []) + Contexts(blocks[1..])
  }

  /** The first line of the context that carries a channel id. */
  function ContextChannel(lines: seq<Line>): Option<string> {
    if lines == [] then None
    else if lines[0].shape.Channel? && lines[0].shape.channelId.Some? then lines[0].shape.channelId
    else ContextChannel(lines[1..])
  }

  function ContextReplyTo(lines: seq<Line>): Option<string> {
    if lines == [] then None
    else if lines[0].replyTo.Some? then lines[0].replyTo
    else ContextReplyTo(lines[1..])
  }

  /** An event header at line `i`, with the id and channel lines that must follow it. */
  predicate EventAt(block: seq<Line>, i: nat) {
    && i + 2 < |block|
    && block[i].shape.EventHeader?
    && block[i + 1].shape.EventId?
    && block[i + 2].shape.Channel?
  }

  datatype BatchEvent = BatchEvent(number: nat, id: string)

  function EventsFrom(block: seq<Line>, i: nat): seq<BatchEvent>
    decreases |block| - i
  {
    if i >= |block| then []
    else
      (if EventAt(block, i) then [BatchEvent(NumberOf(block[i].shape.digits), block[i + 1].shape.id)] else [])
      + EventsFrom(block, i + 1)
  }

  function EventCount(block: seq<Line>): Option<nat> {
    if block != [] && block[0].shape.BatchHeader? && 1 < block[0].shape.count <= MAX_SAFE_INTEGER
    then Some(block[0].shape.count)
    else None
  }

  predicate NumberedFromOne(events: seq<BatchEvent>) {
    forall i :: 0 <= i < |events| ==> events[i].number == i + 1
  }

  function TriggeringEventIds(block: seq<Line>): seq<string> {
    if |block| >= 3 && block[0].shape.SingleHeader? && block[1].shape.EventId? && block[2].shape.Channel? then
      [block[1].shape.id]
    else if && |block| >= 5
            && block[0].shape.NewSingleHeader?
            && block[1].shape.Blank?
            && block[2].shape == EventHeader([1])
            && block[3].shape.EventId?
            && block[4].shape.Channel? then
      [block[3].shape.id]
    else
      var events := EventsFrom(block, 0);
      match EventCount(block)
      case None => []
      case Some(count) =>
        if |events| != count || !NumberedFromOne(events) then []
        else [events[count - 1].id]
  }

  function AllEventIds(blocks: seq<seq<Line>>): seq<string> {
    if blocks == [] then [] else TriggeringEventIds(blocks[0]) + AllEventIds(blocks[1..])
  }

  function RouteOf(blocks: seq<seq<Line>>): Option<BuzzRoute> {
    var contexts := Contexts(blocks);
    if |contexts| != 1 then None
    else
      var ids := AllEventIds(blocks);
      match ContextChannel(contexts[0])
      case None => None
      case Some(channelId) =>
        if |ids| != 1 then None else Some(BuzzRoute(channelId, ids[0], ContextReplyTo(contexts[0])))
  }

  function ParseBuzzRoute(lex: Lexer, prompt: Json): Option<BuzzRoute> {
    RouteOf(Blocks(lex, TextBlocks(prompt)))
  }

  const INSTRUCTION_TITLE := "[eve Buzz ACP connector]\n"
  const INSTRUCTION_TEXT :=
    "The trusted local connector publishes your final ACP assistant text as the ordinary Buzz reply. " +
    "Do not call `buzz messages send` for that reply and do not search for the Buzz CLI. " +
    "Return the complete user-facing answer as assistant text. Buzz credentials are intentionally unavailable inside the eve runtime."
  const INSTRUCTION := INSTRUCTION_TITLE + INSTRUCTION_TEXT

  function InstructedPrompt(prompt: Json): Json {
    Arr((if prompt.Arr? then prompt.items else [])
        + [Obj(map["type" := Str("text"), "text" := Str(INSTRUCTION)])])
  }

  function AddReplySinkInstruction(message: Message): Message {
    var params := Get(message, "params");
    message["params" := Obj(Spread(params)["prompt" := InstructedPrompt(Field(params, "prompt"))])]
  }

  // ----- properties

  /** A block that opens with none of the headers contributes neither a context nor an event. */
  predicate Inert(block: seq<Line>) {
    block == [] ||
    var shape := block[0].shape;
    !shape.ContextHeader? && !shape.SingleHeader? && !shape.NewSingleHeader? && !shape.BatchHeader?
  }

  function Lower(c: char): char {
    if 'A' <= c <= 'Z' then c - 'A' + 'a' else c
  }

  /** The text begins with the prefix, upper and lower case being the same. */
  predicate StartsWith(text: string, prefix: string) {
    |prefix| <= |text| && forall i :: 0 <= i < |prefix| ==> Lower(text[i]) == Lower(prefix[i])
  }

  predicate InFirstLine(text: string, part: string, i: nat) {
    i + |part| <= |text| && text[i..i + |part|] == part && '\n' !in text[..i + |part|]
  }

  /**
   * A first line passes for a header only where the text has the characters its pattern asks for. The patterns for
   * events are anchored at the start of the text; the one for contexts at the start of any line, and a block's first
   * line, which ends at the first line feed, may have other line terminators in it.
   */
  ghost predicate ReadsHeaders(lex: Lexer) {
    forall text :: lex(text) != [] ==>
      match lex(text)[0].shape
      case ContextHeader => exists i :: InFirstLine(text, "[Context]", i)
      case SingleHeader => StartsWith(text, "[Buzz event:")
      case NewSingleHeader => StartsWith(text, "[New message") || StartsWith(text, "[New request")
      case BatchHeader(_) =>
        StartsWith(text, "[Buzz events") || StartsWith(text, "[New messages") || StartsWith(text, "[New request")
      case _ => true
  }

  /** A line with no bracket but its first, going on with an "e", is the title of no block that is read. */
  predicate OpensNoHeader(title: string) {
    |title| >= 2 && title[1] == 'e' && title[|title| - 1] == '\n' && forall i :: 0 < i < |title| ==> title[i] != '['
  }

  lemma NoContextBelowTitle(title: string, rest: string, i: nat)
    requires OpensNoHeader(title)
    ensures !InFirstLine(title + rest, "[Context]", i)
  {
    var text := title + rest;
    assert text[|title| - 1] == '\n' && text[1] == 'e';
    assert forall k :: 0 < k < |title| ==> text[k] == title[k] != '[';
    if i + 9 < |title| {
      assert text[i..i + 9][0] == text[i] && text[i..i + 9][1] == text[i + 1];
    } else if i + 9 <= |text| {
      assert text[|title| - 1] in text[..i + 9];
    }
  }

  lemma NoEventBelowTitle(title: string, rest: string, prefix: string)
    requires OpensNoHeader(title) && |prefix| >= 2 && Lower(prefix[1]) != 'e'
    ensures !StartsWith(title + rest, prefix)
  {
    assert (title + rest)[1] == title[1];
  }

  lemma InstructionTitleOpensNoHeader()
    ensures OpensNoHeader(INSTRUCTION_TITLE)
  {
  }

  lemma InstructionIsInert(lex: Lexer)
    requires ReadsHeaders(lex)
    ensures Inert(lex(INSTRUCTION))
  {
    InstructionTitleOpensNoHeader();
    forall i: nat
      ensures !InFirstLine(INSTRUCTION, "[Context]", i)
    {
      NoContextBelowTitle(INSTRUCTION_TITLE, INSTRUCTION_TEXT, i);
    }
    NoEventBelowTitle(INSTRUCTION_TITLE, INSTRUCTION_TEXT, "[Buzz event:");
    NoEventBelowTitle(INSTRUCTION_TITLE, INSTRUCTION_TEXT, "[Buzz events");
    NoEventBelowTitle(INSTRUCTION_TITLE, INSTRUCTION_TEXT, "[New message");
    NoEventBelowTitle(INSTRUCTION_TITLE, INSTRUCTION_TEXT, "[New messages");
    NoEventBelowTitle(INSTRUCTION_TITLE, INSTRUCTION_TEXT, "[New request");
  }

  lemma {:induction false} TextsOfAppend(items: seq<Json>, more: seq<Json>)
    ensures TextsOf(items + more) == TextsOf(items) + TextsOf(more)
  {
    if items == [] {
      assert items + more == more;
    } else {
      assert (items + more)[1..] == items[1..] + more;
      TextsOfAppend(items[1..], more);
    }
  }

  lemma {:induction false} ContextsAppend(blocks: seq<seq<Line>>, more: seq<seq<Line>>)
    ensures Contexts(blocks + more) == Contexts(blocks) + Contexts(more)
  {
    if blocks == [] {
      assert blocks + more == more;
    } else {
      assert (blocks + more)[1..] == blocks[1..] + more;
      ContextsAppend(blocks[1..], more);
    }
  }

  lemma {:induction false} AllEventIdsAppend(blocks: seq<seq<Line>>, more: seq<seq<Line>>)
    ensures AllEventIds(blocks + more) == AllEventIds(blocks) + AllEventIds(more)
  {
    if blocks == [] {
      assert blocks + more == more;
    } else {
      assert (blocks + more)[1..] == blocks[1..] + more;
      AllEventIdsAppend(blocks[1..], more);
    }
  }

  /** Appending any inert block leaves the route alone. */
  lemma InertBlockKeepsRoute(blocks: seq<seq<Line>>, block: seq<Line>)
    requires Inert(block)
    ensures RouteOf(blocks + [block]) == RouteOf(blocks)
  {
    ContextsAppend(blocks, [block]);
    AllEventIdsAppend(blocks, [block]);
    assert Contexts([block]) == Contexts([]) == [];
    assert AllEventIds([block]) == TriggeringEventIds(block) + AllEventIds([]) == [];
  }

  /** Route stability: the connector instruction never changes where a reply goes, for every prompt. */
  lemma InstructionKeepsRoute(lex: Lexer, message: Message)
    requires ReadsHeaders(lex)
    ensures
      var before := Field(Get(message, "params"), "prompt");
      var after := Field(Get(AddReplySinkInstruction(message), "params"), "prompt");
      ParseBuzzRoute(lex, after) == ParseBuzzRoute(lex, before)
  {
    var before := Field(Get(message, "params"), "prompt");
    var items := if before.Arr? then before.items else [];
    var block := Obj(map["type" := Str("text"), "text" := Str(INSTRUCTION)]);
    TextsOfAppend(items, [block]);
    assert TextsOf([block]) == [INSTRUCTION] + TextsOf([]);
    var texts := TextBlocks(before);
    assert TextBlocks(InstructedPrompt(before)) == texts + [INSTRUCTION];
    assert Blocks(lex, texts + [INSTRUCTION]) == Blocks(lex, texts) + [lex(INSTRUCTION)];
    InstructionIsInert(lex);
    InertBlockKeepsRoute(Blocks(lex, texts), lex(INSTRUCTION));
  }

  /** `positions` lists, in order, every line at or after `from` that heads an event. */
  ghost predicate EnumeratesHeaders(block: seq<Line>, from: nat, positions: seq<nat>) {
    && (forall i :: 0 <= i < |positions| ==> from <= positions[i] && EventAt(block, positions[i]))
    && (forall i, j :: 0 <= i < j < |positions| ==> positions[i] < positions[j])
    && (forall k: nat :: from <= k && EventAt(block, k) ==> k in positions)
  }

  function EventOf(block: seq<Line>, i: nat): BatchEvent
    requires EventAt(block, i)
  {
    BatchEvent(NumberOf(block[i].shape.digits), block[i + 1].shape.id)
  }

  function EventsAt(block: seq<Line>, positions: seq<nat>): (events: seq<BatchEvent>)
    requires forall i :: 0 <= i < |positions| ==> EventAt(block, positions[i])
    ensures |events| == |positions|
    ensures forall i :: 0 <= i < |positions| ==> events[i] == EventOf(block, positions[i])
  {
    if positions == [] then [] else [EventOf(block, positions[0])] + EventsAt(block, positions[1..])
  }

  lemma EnumerateAnother(block: seq<Line>, from: nat, rest: seq<nat>)
    requires EventAt(block, from) && EnumeratesHeaders(block, from + 1, rest)
    ensures EnumeratesHeaders(block, from, [from] + rest)
  {
    forall k: nat | from <= k && EventAt(block, k)
      ensures k in [from] + rest
    {
      if k > from {
        assert k in rest;
      }
    }
  }

  lemma EnumerateRest(block: seq<Line>, from: nat, positions: seq<nat>)
    requires EventAt(block, from) && EnumeratesHeaders(block, from, positions)
    ensures positions != [] && positions[0] == from
    ensures EnumeratesHeaders(block, from + 1, positions[1..])
  {
    assert from in positions;
    assert positions[0] == from;
    forall k: nat | from + 1 <= k && EventAt(block, k)
      ensures k in positions[1..]
    {
      assert k in positions && positions == [from] + positions[1..];
    }
  }

  lemma {:induction false} HeadersExist(block: seq<Line>, from: nat) returns (positions: seq<nat>)
    ensures EnumeratesHeaders(block, from, positions)
    decreases |block| - from
  {
    if from >= |block| {
      positions := [];
    } else {
      positions := HeadersExist(block, from + 1);
      if EventAt(block, from) {
        EnumerateAnother(block, from, positions);
        positions := [from] + positions;
      } else {
        assert forall k: nat :: from <= k && EventAt(block, k) ==> from + 1 <= k;
      }
    }
  }

  lemma {:induction false} EventsFromHeaders(block: seq<Line>, from: nat, positions: seq<nat>)
    requires EnumeratesHeaders(block, from, positions)
    ensures EventsFrom(block, from) == EventsAt(block, positions)
    decreases |block| - from
  {
    if from >= |block| {
      assert positions == [];
    } else if EventAt(block, from) {
      EnumerateRest(block, from, positions);
      EventsFromHeaders(block, from + 1, positions[1..]);
    } else {
      assert EnumeratesHeaders(block, from + 1, positions);
      EventsFromHeaders(block, from + 1, positions);
    }
  }

  /** The event headers of the block are numbered exactly 1..n, in order, for the n its first line declares. */
  ghost predicate NumberedBatch(block: seq<Line>, positions: seq<nat>)
    requires block != [] && block[0].shape.BatchHeader?
  {
    && EnumeratesHeaders(block, 0, positions)
    && |positions| == block[0].shape.count
    && forall i :: 0 <= i < |positions| ==> NumberOf(block[positions[i]].shape.digits) == i + 1
  }

  lemma NumberedBatchReads(block: seq<Line>, positions: seq<nat>)
    requires block != [] && block[0].shape.BatchHeader?
    requires NumberedBatch(block, positions)
    ensures |EventsFrom(block, 0)| == block[0].shape.count && NumberedFromOne(EventsFrom(block, 0))
    ensures positions != [] ==>
      EventsFrom(block, 0)[|positions| - 1].id == block[positions[|positions| - 1] + 1].shape.id
  {
    EventsFromHeaders(block, 0, positions);
  }

  lemma ReadBatchIsNumbered(block: seq<Line>) returns (positions: seq<nat>)
    requires block != [] && block[0].shape.BatchHeader?
    requires |EventsFrom(block, 0)| == block[0].shape.count && NumberedFromOne(EventsFrom(block, 0))
    ensures NumberedBatch(block, positions)
  {
    positions := HeadersExist(block, 0);
    EventsFromHeaders(block, 0, positions);
    forall i | 0 <= i < |positions|
      ensures NumberOf(block[positions[i]].shape.digits) == i + 1
    {
      assert EventsFrom(block, 0)[i] == EventOf(block, positions[i]);
    }
  }

  /**
   * A batch is accepted exactly when its header lines are numbered 1..n for its declared n (at least two), and
   * then the reply goes to the event under the last header.
   */
  lemma AcceptedBatchIsNumbered(block: seq<Line>)
    requires block != [] && block[0].shape.BatchHeader?
    ensures TriggeringEventIds(block) != [] <==>
      1 < block[0].shape.count <= MAX_SAFE_INTEGER && exists positions :: NumberedBatch(block, positions)
    ensures forall positions :: TriggeringEventIds(block) != [] && NumberedBatch(block, positions) ==>
      TriggeringEventIds(block) == [block[positions[|positions| - 1] + 1].shape.id]
  {
    if TriggeringEventIds(block) != [] {
      var positions := ReadBatchIsNumbered(block);
    }
    forall positions | NumberedBatch(block, positions)
      ensures 1 < block[0].shape.count <= MAX_SAFE_INTEGER ==>
        TriggeringEventIds(block) == [block[positions[|positions| - 1] + 1].shape.id]
    {
      NumberedBatchReads(block, positions);
    }
  }

  /** The three lines at `i` are an event header, an event id and a channel line. */
  ghost predicate HeadAt(block: seq<Line>, i: nat, digits: seq<Digit>, id: string) {
    exists channel, a, b, c ::
      i + 3 <= |block|
      && block[i..i + 3] == [Line(EventHeader(digits), a), Line(EventId(id), b), Line(Channel(channel), c)]
  }

  lemma EventAtExactly(block: seq<Line>, i: nat)
    ensures EventAt(block, i) <==> exists digits, id :: HeadAt(block, i, digits, id)
    ensures forall digits, id :: HeadAt(block, i, digits, id) ==>
      EventAt(block, i) && EventOf(block, i) == BatchEvent(NumberOf(digits), id)
  {
    if EventAt(block, i) {
      var h, e, c := block[i], block[i + 1], block[i + 2];
      assert block[i..i + 3] == [
        Line(EventHeader(h.shape.digits), h.replyTo),
        Line(EventId(e.shape.id), e.replyTo),
        Line(Channel(c.shape.channelId), c.replyTo)];
      assert HeadAt(block, i, h.shape.digits, e.shape.id);
    }
    forall digits, id | HeadAt(block, i, digits, id)
      ensures EventAt(block, i) && EventOf(block, i) == BatchEvent(NumberOf(digits), id)
    {
      var channel, a, b, c :|
        block[i..i + 3] == [Line(EventHeader(digits), a), Line(EventId(id), b), Line(Channel(channel), c)];
      assert block[i] == block[i..i + 3][0] && block[i + 1] == block[i..i + 3][1] && block[i + 2] == block[i..i + 3][2];
    }
  }

  /** The block opens with a lone event's header and its id and channel lines. */
  predicate OpensLone(block: seq<Line>, id: string) {
    && |block| >= 3 && block[0].shape == SingleHeader && block[1].shape == EventId(id) && block[2].shape.Channel?
  }

  /** The block opens with a new message's header, an empty line, and the head of an event numbered "1". */
  ghost predicate OpensNewLone(block: seq<Line>, id: string) {
    |block| >= 2 && block[0].shape == NewSingleHeader && block[1].shape == Blank && HeadAt(block, 2, [1], id)
  }

  /** The block opens with a batch header whose count the heads of events in it meet, the last naming `id`. */
  ghost predicate OpensBatch(block: seq<Line>, id: string) {
    && block != [] && block[0].shape.BatchHeader? && 1 < block[0].shape.count <= MAX_SAFE_INTEGER
    && exists positions :: NumberedBatch(block, positions) && block[positions[|positions| - 1] + 1].shape == EventId(id)
  }

  /** A block triggers an event exactly in these three ways. */
  lemma TriggerExactly(block: seq<Line>, id: string)
    ensures TriggeringEventIds(block) == [id] <==> OpensLone(block, id) || OpensNewLone(block, id) || OpensBatch(block, id)
  {
    EventAtExactly(block, 2);
    if block != [] && block[0].shape.BatchHeader? {
      AcceptedBatchIsNumbered(block);
    }
  }

  // ----- rendering a batch, and reading it back

  /** One event as Buzz renders it: header, id, channel, then lines of content. */
  datatype Rendered = Rendered(id: string, channel: Option<string>, content: seq<Line>)

  function DigitsOf(n: nat): (digits: seq<Digit>)
    ensures NumberOf(digits) == n
  {
    if n < 10 then
      assert NumberOf([]) == 0;
      [n]
    else
      var front := DigitsOf(n / 10);
      NumberOfSnoc(front, n % 10);
      front + [n % 10]
  }

  lemma NumberOfSnoc(front: seq<Digit>, last: Digit)
    ensures NumberOf(front + [last]) == NumberOf(front) * 10 + last
  {
    assert (front + [last])[..|front|] == front;
  }

  function RenderEvent(number: nat, event: Rendered): seq<Line> {
    [Line(EventHeader(DigitsOf(number)), None), Line(EventId(event.id), None), Line(Channel(event.channel), None)]
    + event.content
  }

  function RenderEvents(events: seq<Rendered>): seq<Line> {
    if events == [] then []
    else RenderEvents(events[..|events| - 1]) + RenderEvent(|events|, events[|events| - 1])
  }

  function RenderBatch(events: seq<Rendered>): seq<Line> {
    [Line(BatchHeader(|events|), None), Line(Blank, None)] + RenderEvents(events)
  }

  /** Somewhere in the content stand three lines that read as the head of an event. */
  ghost predicate Imitates(content: seq<Line>) {
    exists i :: EventAt(content, i)
  }

  ghost predicate NoneImitates(events: seq<Rendered>) {
    forall k :: 0 <= k < |events| ==> !Imitates(events[k].content)
  }

  /** What scanning the rendered events comes upon: each event, then what its content passes for. */
  function Scanned(events: seq<Rendered>): seq<BatchEvent> {
    if events == [] then []
    else
      var n := |events|;
      Scanned(events[..n - 1]) + [BatchEvent(n, events[n - 1].id)] + EventsFrom(events[n - 1].content, 0)
  }

  lemma {:induction false} EventsFromNone(block: seq<Line>, i: nat)
    ensures EventsFrom(block, i) == [] <==> forall j: nat :: i <= j ==> !EventAt(block, j)
    decreases |block| - i
  {
    if i < |block| {
      EventsFromNone(block, i + 1);
    }
  }

  /** Scanning a block up to a header line does not look past it: what precedes is scanned on its own. */
  lemma {:induction false} EventsFromSplit(front: seq<Line>, back: seq<Line>, i: nat)
    requires i <= |front|
    requires back != [] && back[0].shape.EventHeader?
    ensures EventsFrom(front + back, i) == EventsFrom(front, i) + EventsFrom(back, 0)
    decreases |front| - i
  {
    if i < |front| {
      assert EventAt(front + back, i) <==> EventAt(front, i);
      EventsFromSplit(front, back, i + 1);
    } else {
      EventsFromShift(front, back, 0);
    }
  }

  lemma {:induction false} EventsFromShift(front: seq<Line>, back: seq<Line>, i: nat)
    ensures EventsFrom(front + back, |front| + i) == EventsFrom(back, i)
    decreases |back| - i
  {
    if i < |back| {
      assert EventAt(front + back, |front| + i) <==> EventAt(back, i);
      EventsFromShift(front, back, i + 1);
    }
  }

  lemma RenderedEventScans(number: nat, event: Rendered)
    ensures EventsFrom(RenderEvent(number, event), 0) == [BatchEvent(number, event.id)] + EventsFrom(event.content, 0)
  {
    var block := RenderEvent(number, event);
    assert EventAt(block, 0) && !EventAt(block, 1) && !EventAt(block, 2);
    EventsFromShift(block[..3], event.content, 0);
    assert block == block[..3] + event.content;
    assert EventsFrom(block, 1) == EventsFrom(block, 2) == EventsFrom(block, 3);
    assert EventsFrom(block, 0) == [BatchEvent(number, event.id)] + EventsFrom(block, 1);
  }

  lemma AnotherEventScans(block: seq<Line>, number: nat, event: Rendered)
    ensures EventsFrom(block + RenderEvent(number, event), 0)
      == EventsFrom(block, 0) + [BatchEvent(number, event.id)] + EventsFrom(event.content, 0)
  {
    RenderedEventScans(number, event);
    EventsFromSplit(block, RenderEvent(number, event), 0);
  }

  lemma RenderedSnoc(prefix: seq<Line>, events: seq<Rendered>)
    requires events != []
    ensures var n, front := |events|, events[..|events| - 1];
      && prefix + RenderEvents(events) == prefix + RenderEvents(front) + RenderEvent(n, events[n - 1])
      && Scanned(events) == Scanned(front) + [BatchEvent(n, events[n - 1].id)] + EventsFrom(events[n - 1].content, 0)
  {
  }

  lemma {:induction false} RenderedEventsScan(prefix: seq<Line>, events: seq<Rendered>)
    requires EventsFrom(prefix, 0) == []
    ensures EventsFrom(prefix + RenderEvents(events), 0) == Scanned(events)
  {
    if events == [] {
      assert prefix + RenderEvents(events) == prefix;
    } else {
      var n := |events|;
      var front := events[..n - 1];
      RenderedEventsScan(prefix, front);
      AnotherEventScans(prefix + RenderEvents(front), n, events[n - 1]);
      RenderedSnoc(prefix, events);
    }
  }

  /** An imitation anywhere makes one event too many; without any, the events come out as they went in. */
  lemma {:induction false} ScannedExactly(events: seq<Rendered>)
    ensures |Scanned(events)| >= |events|
    ensures |Scanned(events)| == |events| <==> NoneImitates(events)
    ensures NoneImitates(events) ==>
      forall k :: 0 <= k < |events| ==> Scanned(events)[k] == BatchEvent(k + 1, events[k].id)
  {
    if events != [] {
      var n := |events|;
      var front := events[..n - 1];
      ScannedExactly(front);
      EventsFromNone(events[n - 1].content, 0);
      assert NoneImitates(events) <==> NoneImitates(front) && !Imitates(events[n - 1].content);
    }
  }

  /**
   * Round trip, whatever the events say: a rendered batch of two or more is read back as its last event, unless
   * the content of some event imitates the head of an event; then the batch is read as no event at all.
   */
  lemma BatchRoundTrip(events: seq<Rendered>)
    ensures TriggeringEventIds(RenderBatch(events)) ==
      if 2 <= |events| <= MAX_SAFE_INTEGER && NoneImitates(events) then [events[|events| - 1].id] else []
  {
    var prefix := [Line(BatchHeader(|events|), None), Line(Blank, None)];
    EventsFromNone(prefix, 0);
    RenderedEventsScan(prefix, events);
    ScannedExactly(events);
    assert RenderBatch(events)[0] == prefix[0];
  }

  /** A prompt of a context and one other block takes its event from that block. */
  lemma RouteOfPair(context: seq<Line>, block: seq<Line>)
    requires IsContext(context) && ContextChannel(context).Some? && !IsContext(block)
    ensures var ids := TriggeringEventIds(block);
      RouteOf([context, block]) ==
        if |ids| != 1 then None
        else Some(BuzzRoute(ContextChannel(context).value, ids[0], ContextReplyTo(context)))
  {
    var blocks := [context, block];
    assert blocks[1..] == [block] && [block][1..] == [];
    assert TriggeringEventIds(context) == [];
    assert AllEventIds([block]) == TriggeringEventIds(block) + AllEventIds([]);
    assert AllEventIds(blocks) == TriggeringEventIds(context) + AllEventIds([block]);
    assert Contexts([block]) == Contexts([]) == [];
    assert Contexts(blocks) == [context] + Contexts([block]);
  }

  /** A context and a rendered batch: routed to the context's channel and the last event, or not at all. */
  lemma RenderedPromptRoute(context: seq<Line>, events: seq<Rendered>)
    requires IsContext(context) && ContextChannel(context).Some?
    ensures RouteOf([context, RenderBatch(events)]) ==
      if 2 <= |events| <= MAX_SAFE_INTEGER && NoneImitates(events) then
        Some(BuzzRoute(ContextChannel(context).value, events[|events| - 1].id, ContextReplyTo(context)))
      else None
  {
    assert !IsContext(RenderBatch(events));
    BatchRoundTrip(events);
    RouteOfPair(context, RenderBatch(events));
  }

  /** A lone event as Buzz renders it, alone or as a message that arrived during work. */
  function RenderSingle(event: Rendered, arrivedLate: bool): seq<Line> {
    if arrivedLate then [Line(NewSingleHeader, None), Line(Blank, None)] + RenderEvent(1, event)
    else [Line(SingleHeader, None), Line(EventId(event.id), None), Line(Channel(event.channel), None)] + event.content
  }

  /** Nothing that the event's content says, headers and ids included, can redirect the reply to a lone event. */
  lemma ContentCannotRedirect(context: seq<Line>, event: Rendered, arrivedLate: bool)
    requires IsContext(context) && ContextChannel(context).Some?
    ensures RouteOf([context, RenderSingle(event, arrivedLate)]) == Some(
      BuzzRoute(ContextChannel(context).value, event.id, ContextReplyTo(context)))
  {
    var block := RenderSingle(event, arrivedLate);
    DigitsOfOne();
    assert TriggeringEventIds(block) == [event.id];
    RouteOfPair(context, block);
  }

  lemma DigitsOfOne()
    ensures DigitsOf(1) == [1]
  {
  }

  // ----- from the prompt itself

  /** The item is a text block with this text. */
  predicate IsTextItem(item: Json, text: string) {
    && item.Obj?
    && "type" in item.fields && item.fields["type"] == Str("text")
    && "text" in item.fields && item.fields["text"] == Str(text)
  }

  ghost predicate NoTextItem(item: Json) {
    forall text :: !IsTextItem(item, text)
  }

  /** The items at the positions, in order, are text blocks with these texts, and no other item is a text block. */
  ghost predicate Shows(items: seq<Json>, positions: seq<nat>, texts: seq<string>) {
    && |positions| == |texts|
    && (forall k :: 0 <= k < |positions| ==> positions[k] < |items| && IsTextItem(items[positions[k]], texts[k]))
    && (forall j, k :: 0 <= j < k < |positions| ==> positions[j] < positions[k])
    && (forall i: nat :: i < |items| && i !in positions ==> NoTextItem(items[i]))
  }

  lemma TextsOfOne(item: Json)
    ensures forall text :: IsTextItem(item, text) ==> TextsOf([item]) == [text]
    ensures NoTextItem(item) ==> TextsOf([item]) == []
  {
    assert TextsOf([item][1..]) == [];
    if Field(item, "type") == Str("text") && Field(item, "text").Str? {
      assert IsTextItem(item, Field(item, "text").s);
    }
  }

  lemma ShowsButLast(items: seq<Json>, positions: seq<nat>, texts: seq<string>)
    requires Shows(items, positions, texts) && items != []
    ensures var n := |items| - 1;
      if n in positions then
        && positions != [] && positions[|positions| - 1] == n && IsTextItem(items[n], texts[|texts| - 1])
        && Shows(items[..n], positions[..|positions| - 1], texts[..|texts| - 1])
      else NoTextItem(items[n]) && Shows(items[..n], positions, texts)
  {
    var n := |items| - 1;
    if n in positions {
      LastIsShown(items, positions, texts);
      FrontShows(items, positions, texts);
    } else {
      forall i: nat | i < n && i !in positions
        ensures NoTextItem(items[..n][i])
      {
        assert items[..n][i] == items[i];
      }
    }
  }

  lemma LastIsShown(items: seq<Json>, positions: seq<nat>, texts: seq<string>)
    requires Shows(items, positions, texts) && items != [] && |items| - 1 in positions
    ensures positions != [] && positions[|positions| - 1] == |items| - 1
  {
    var last := |positions| - 1;
    assert forall j :: 0 <= j < last ==> positions[j] < positions[last];
  }

  lemma FrontShows(items: seq<Json>, positions: seq<nat>, texts: seq<string>)
    requires Shows(items, positions, texts) && items != []
    requires positions != [] && positions[|positions| - 1] == |items| - 1
    ensures Shows(items[..|items| - 1], positions[..|positions| - 1], texts[..|texts| - 1])
  {
    var n, last := |items| - 1, |positions| - 1;
    forall i: nat | i < n && i !in positions[..last]
      ensures NoTextItem(items[..n][i])
    {
      assert i !in positions && items[..n][i] == items[i];
    }
  }

  lemma {:induction false} TextsShown(items: seq<Json>, positions: seq<nat>, texts: seq<string>)
    requires Shows(items, positions, texts)
    ensures TextsOf(items) == texts
  {
    if items == [] {
      assert positions == [];
    } else {
      var n := |items| - 1;
      ShowsButLast(items, positions, texts);
      TextsOfOne(items[n]);
      TextsOfAppend(items[..n], [items[n]]);
      assert items == items[..n] + [items[n]];
      if n in positions {
        TextsShown(items[..n], positions[..|positions| - 1], texts[..|texts| - 1]);
        assert texts == texts[..|texts| - 1] + [texts[|texts| - 1]];
      } else {
        TextsShown(items[..n], positions, texts);
      }
    }
  }

  // ----- which prompts have a route

  /** The first channel id that a context carries. */
  predicate CarriesChannel(lines: seq<Line>, channelId: string, i: nat) {
    && i < |lines| && lines[i].shape == Channel(Some(channelId))
    && forall j :: 0 <= j < i ==> lines[j].shape.Channel? ==> lines[j].shape.channelId == None
  }

  /** The first reply anchor that a context carries, if it carries one. */
  ghost predicate CarriesReplyTo(lines: seq<Line>, replyTo: Option<string>) {
    if replyTo.Some? then exists i :: FirstReplyTo(lines, replyTo, i)
    else forall i :: 0 <= i < |lines| ==> lines[i].replyTo == None
  }

  predicate FirstReplyTo(lines: seq<Line>, replyTo: Option<string>, i: nat) {
    i < |lines| && lines[i].replyTo == replyTo && forall j :: 0 <= j < i ==> lines[j].replyTo == None
  }

  lemma {:induction false} ContextChannelIsFirst(lines: seq<Line>)
    ensures forall channelId :: ContextChannel(lines) == Some(channelId) <==> exists i :: CarriesChannel(lines, channelId, i)
  {
    if lines != [] {
      var rest := lines[1..];
      ContextChannelIsFirst(rest);
      if lines[0].shape.Channel? && lines[0].shape.channelId.Some? {
        assert CarriesChannel(lines, lines[0].shape.channelId.value, 0);
      } else {
        forall channelId, i: nat | CarriesChannel(rest, channelId, i)
          ensures CarriesChannel(lines, channelId, i + 1)
        {
          forall j | 0 <= j < i + 1
            ensures lines[j].shape.Channel? ==> lines[j].shape.channelId == None
          {
            if j > 0 {
              assert lines[j] == rest[j - 1];
            }
          }
        }
        forall channelId, i: nat | CarriesChannel(lines, channelId, i)
          ensures i > 0 && CarriesChannel(rest, channelId, i - 1)
        {
          assert forall j :: 0 <= j < |rest| ==> rest[j] == lines[j + 1];
        }
      }
    }
  }

  lemma {:induction false} ContextReplyToIsFirst(lines: seq<Line>)
    ensures CarriesReplyTo(lines, ContextReplyTo(lines))
  {
    if lines != [] {
      var rest := lines[1..];
      ContextReplyToIsFirst(rest);
      assert forall j :: 0 <= j < |rest| ==> rest[j] == lines[j + 1];
      if lines[0].replyTo.Some? {
        assert FirstReplyTo(lines, lines[0].replyTo, 0);
      } else if ContextReplyTo(rest).Some? {
        var i: nat :| FirstReplyTo(rest, ContextReplyTo(rest), i);
        forall j | 0 <= j < i + 1
          ensures lines[j].replyTo == None
        {
          assert j > 0 ==> lines[j] == rest[j - 1];
        }
        assert FirstReplyTo(lines, ContextReplyTo(rest), i + 1);
      }
    }
  }

  /** Block `c` is the one context, block `t` the one with a triggering event. */
  predicate OneOfEach(blocks: seq<seq<Line>>, c: nat, t: nat, id: string) {
    && c < |blocks| && t < |blocks|
    && IsContext(blocks[c]) && TriggeringEventIds(blocks[t]) == [id]
    && (forall i :: 0 <= i < |blocks| && i != c ==> !IsContext(blocks[i]))
    && (forall i :: 0 <= i < |blocks| && i != t ==> TriggeringEventIds(blocks[i]) == [])
  }

  lemma {:induction false} NoContexts(blocks: seq<seq<Line>>)
    ensures Contexts(blocks) == [] <==> forall i :: 0 <= i < |blocks| ==> !IsContext(blocks[i])
  {
    if blocks != [] {
      NoContexts(blocks[1..]);
    }
  }

  lemma {:induction false} OneContext(blocks: seq<seq<Line>>, c: nat)
    requires c < |blocks| && IsContext(blocks[c])
    ensures Contexts(blocks) == [blocks[c]] <==> forall i :: 0 <= i < |blocks| && i != c ==> !IsContext(blocks[i])
    ensures |Contexts(blocks)| == 1 ==> Contexts(blocks) == [blocks[c]]
  {
    var rest := blocks[1..];
    assert forall i :: 0 <= i < |rest| ==> rest[i] == blocks[i + 1];
    NoContexts(rest);
    if c > 0 {
      OneContext(rest, c - 1);
      assert Contexts(rest) != [];
    }
  }

  function Flatten(lists: seq<seq<string>>): seq<string> {
    if lists == [] then [] else lists[0] + Flatten(lists[1..])
  }

  lemma {:induction false} FlattenNone(lists: seq<seq<string>>)
    ensures Flatten(lists) == [] <==> forall i :: 0 <= i < |lists| ==> lists[i] == []
  {
    if lists != [] {
      FlattenNone(lists[1..]);
    }
  }

  lemma {:induction false} FlattenOne(lists: seq<seq<string>>, t: nat)
    requires t < |lists| && |lists[t]| == 1
    ensures Flatten(lists) == lists[t] <==> forall i :: 0 <= i < |lists| && i != t ==> lists[i] == []
    ensures |Flatten(lists)| == 1 ==> Flatten(lists) == lists[t]
  {
    var rest := lists[1..];
    assert forall i :: 0 <= i < |rest| ==> rest[i] == lists[i + 1];
    FlattenNone(rest);
    if t > 0 {
      FlattenOne(rest, t - 1);
      assert Flatten(rest) != [];
    }
  }

  function IdLists(blocks: seq<seq<Line>>): seq<seq<string>> {
    seq(|blocks|, i requires 0 <= i < |blocks| => TriggeringEventIds(blocks[i]))
  }

  lemma {:induction false} AllEventIdsFlatten(blocks: seq<seq<Line>>)
    ensures AllEventIds(blocks) == Flatten(IdLists(blocks))
  {
    if blocks != [] {
      AllEventIdsFlatten(blocks[1..]);
      assert IdLists(blocks)[1..] == IdLists(blocks[1..]);
    }
  }

  lemma NoEventIds(blocks: seq<seq<Line>>)
    ensures AllEventIds(blocks) == [] <==> forall i :: 0 <= i < |blocks| ==> TriggeringEventIds(blocks[i]) == []
  {
    AllEventIdsFlatten(blocks);
    FlattenNone(IdLists(blocks));
    assert forall i :: 0 <= i < |blocks| ==> IdLists(blocks)[i] == TriggeringEventIds(blocks[i]);
  }

  lemma OneEventId(blocks: seq<seq<Line>>, t: nat)
    requires t < |blocks| && |TriggeringEventIds(blocks[t])| == 1
    ensures AllEventIds(blocks) == TriggeringEventIds(blocks[t])
      <==> forall i :: 0 <= i < |blocks| && i != t ==> TriggeringEventIds(blocks[i]) == []
    ensures |AllEventIds(blocks)| == 1 ==> AllEventIds(blocks) == TriggeringEventIds(blocks[t])
  {
    AllEventIdsFlatten(blocks);
    FlattenOne(IdLists(blocks), t);
    assert forall i :: 0 <= i < |blocks| ==> IdLists(blocks)[i] == TriggeringEventIds(blocks[i]);
  }

  lemma AtMostOneTrigger(block: seq<Line>)
    ensures |TriggeringEventIds(block)| <= 1
  {
  }

  lemma FindOneOfEach(blocks: seq<seq<Line>>) returns (c: nat, t: nat)
    requires |Contexts(blocks)| == 1 && |AllEventIds(blocks)| == 1
    ensures OneOfEach(blocks, c, t, AllEventIds(blocks)[0]) && Contexts(blocks) == [blocks[c]]
  {
    NoContexts(blocks);
    NoEventIds(blocks);
    c :| c < |blocks| && IsContext(blocks[c]);
    t :| t < |blocks| && TriggeringEventIds(blocks[t]) != [];
    AtMostOneTrigger(blocks[t]);
    OneContext(blocks, c);
    OneEventId(blocks, t);
  }

  /** The route's event is the one event of the blocks, its channel and anchor the first of the one context. */
  ghost predicate RoutedBy(blocks: seq<seq<Line>>, c: nat, t: nat, route: BuzzRoute) {
    && OneOfEach(blocks, c, t, route.triggeringEventId)
    && (exists i :: CarriesChannel(blocks[c], route.channelId, i))
    && CarriesReplyTo(blocks[c], route.replyTo)
  }

  lemma OneReplyTo(lines: seq<Line>, a: Option<string>, b: Option<string>)
    requires CarriesReplyTo(lines, a) && CarriesReplyTo(lines, b)
    ensures a == b
  {
    if a.Some? && b.Some? {
      var i :| FirstReplyTo(lines, a, i);
      var j :| FirstReplyTo(lines, b, j);
      assert i == j;
    }
  }

  lemma RoutedBlocks(blocks: seq<seq<Line>>, c: nat, t: nat, route: BuzzRoute)
    requires RoutedBy(blocks, c, t, route)
    ensures RouteOf(blocks) == Some(route)
  {
    OneContext(blocks, c);
    OneEventId(blocks, t);
    ContextChannelIsFirst(blocks[c]);
    ContextReplyToIsFirst(blocks[c]);
    OneReplyTo(blocks[c], ContextReplyTo(blocks[c]), route.replyTo);
  }

  lemma RouteIsRouted(blocks: seq<seq<Line>>) returns (c: nat, t: nat)
    requires RouteOf(blocks).Some?
    ensures RoutedBy(blocks, c, t, RouteOf(blocks).value)
  {
    c, t := FindOneOfEach(blocks);
    ContextChannelIsFirst(blocks[c]);
    ContextReplyToIsFirst(blocks[c]);
  }

  /**
   * Which route a prompt has, from its JSON: exactly the one named by its one context block and its one block with
   * a triggering event, among whatever other items; and a prompt that is no array has none.
   */
  lemma PromptRouteExactly(lex: Lexer, prompt: Json, positions: seq<nat>, texts: seq<string>)
    requires prompt.Arr? ==> Shows(prompt.items, positions, texts)
    ensures !prompt.Arr? ==> ParseBuzzRoute(lex, prompt) == None
    ensures prompt.Arr? ==> forall route ::
      ParseBuzzRoute(lex, prompt) == Some(route) <==> exists c, t :: RoutedBy(Blocks(lex, texts), c, t, route)
  {
    if prompt.Arr? {
      TextsShown(prompt.items, positions, texts);
      var blocks := Blocks(lex, texts);
      forall c, t, route | RoutedBy(blocks, c, t, route)
        ensures RouteOf(blocks) == Some(route)
      {
        RoutedBlocks(blocks, c, t, route);
      }
      if RouteOf(blocks).Some? {
        var c, t := RouteIsRouted(blocks);
      }
    }
  }

  /** A prompt whose text blocks are a context and a rendered batch, among other items, goes to the batch's last event. */
  lemma BatchPromptRoute(
    lex: Lexer, items: seq<Json>, positions: seq<nat>, context: string, batch: string, events: seq<Rendered>)
    requires Shows(items, positions, [context, batch])
    requires IsContext(lex(context)) && ContextChannel(lex(context)).Some? && lex(batch) == RenderBatch(events)
    ensures ParseBuzzRoute(lex, Arr(items)) ==
      if 2 <= |events| <= MAX_SAFE_INTEGER && NoneImitates(events) then
        Some(BuzzRoute(ContextChannel(lex(context)).value, events[|events| - 1].id, ContextReplyTo(lex(context))))
      else None
  {
    TextsShown(items, positions, [context, batch]);
    assert Blocks(lex, [context, batch]) == [lex(context), lex(batch)];
    RenderedPromptRoute(lex(context), events);
  }

  /** The same for a lone event, whatever it says. */
  lemma LonePromptRoute(
    lex: Lexer, items: seq<Json>, positions: seq<nat>, context: string, single: string, event: Rendered, late: bool)
    requires Shows(items, positions, [context, single])
    requires IsContext(lex(context)) && ContextChannel(lex(context)).Some? && lex(single) == RenderSingle(event, late)
    ensures ParseBuzzRoute(lex, Arr(items)) == Some(
      BuzzRoute(ContextChannel(lex(context)).value, event.id, ContextReplyTo(lex(context))))
  {
    TextsShown(items, positions, [context, single]);
    assert Blocks(lex, [context, single]) == [lex(context), lex(single)];
    ContentCannotRedirect(lex(context), event, late);
  }
}
