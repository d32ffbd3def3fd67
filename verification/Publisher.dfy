/** One run of the buzz CLI, event by event, and the outcome the adapter makes of it (publisher.ts). */
module Publisher {
  import opened Json
  import opened PublicationFiles

  const OUTPUT_LIMIT := 64 * 1024

  /** Output bytes that decode one to one; the text decoded from them has as many characters. */
  type Ascii = b: int | 0 <= b < 128

  datatype ChildEvent =
    | Spawned
    | StdoutData(chunk: seq<Ascii>)
    | StderrData(chunk: seq<Ascii>)
    | Failed(message: string)                              // "error"
    | Closed(code: Option<string>, signal: Option<string>) // "close"
    | StdinFailed(message: string)
    | TimedOut

  /** The local variables of `publishBuzzReply`; `result` is what its promise resolved to. */
  datatype View = View(
    spawned: bool, stdout: seq<Ascii>, stderr: seq<Ascii>, stdoutOverflow: bool,
    inputError: Option<string>, result: Option<PublicationOutcome>)

  const INITIAL := View(false, [], [], false, None, None)

  function Decoded(bytes: seq<Ascii>): (text: string)
    ensures |text| == |bytes|
    ensures forall i :: 0 <= i < |bytes| ==> text[i] == bytes[i] as char
  {
    if bytes == [] then "" else Decoded(bytes[..|bytes| - 1]) + [bytes[|bytes| - 1] as char]
  }

  /** The first `limit` bytes, or all of them. */
  function Prefix(bytes: seq<Ascii>, limit: int): seq<Ascii> {
    if limit <= 0 then [] else if |bytes| <= limit then bytes else bytes[..limit]
  }

  /** A JSON text's value; `Undefined` for one that does not parse. */
  type Parser = string -> Json

  predicate IsHex(c: char) {
    '0' <= c <= '9' || 'a' <= c <= 'f' || 'A' <= c <= 'F'
  }

  predicate IsEventId(s: string) {
    |s| == 64 && forall i :: 0 <= i < 64 ==> IsHex(s[i])
  }

  datatype Response = Accepted(eventId: string) | Rejected | Unreadable

  function ParsePublicationResponse(parse: Parser, output: string): Response {
    var value := parse(Trim(output));
    if !value.Obj? then Unreadable
    else if Field(value, "accepted") == Bool(false) then Rejected
    else
      var eventId := Field(value, "event_id");
      if Field(value, "accepted") != Bool(true) || !eventId.Str? || !IsEventId(eventId.s) then Unreadable
      else Accepted(eventId.s)
  }

  function OrElse(first: string, second: string): string {
    if first != "" then first else second
  }

  const UNCONFIRMED := "; delivery could not be confirmed"

  /** What a "close" makes of the output captured so far. */
  function CloseOutcome(parse: Parser, v: View, event: ChildEvent): PublicationOutcome
    requires event.Closed?
  {
    var response := if v.stdoutOverflow then Unreadable else ParsePublicationResponse(parse, Decoded(v.stdout));
    match response
    case Accepted(eventId) => Delivered(eventId)
    case Rejected => NotDelivered("buzz rejected the message")
    case Unreadable =>
      var status := match event.signal case Some(s) => s case None => event.code.GetOr("null");
      var exited := "buzz CLI exited with " + status;
      var input := if v.inputError.Some? then OrElse(v.inputError.value, exited) else exited;
      DeliveryUnknown(OrElse(Trim(Decoded(v.stderr)), input) + UNCONFIRMED)
  }

  predicate IsSettling(event: ChildEvent) {
    event.Failed? || event.Closed? || event.TimedOut?
  }

  /** What an event that can end the call resolves it to, if nothing has before. */
  function Verdict(parse: Parser, timeoutMs: string, v: View, event: ChildEvent): PublicationOutcome
    requires IsSettling(event)
  {
    match event
    case TimedOut => DeliveryUnknown("buzz CLI timed out after " + timeoutMs + "ms" + UNCONFIRMED)
    case Failed(message) =>
      if v.spawned then DeliveryUnknown(message + UNCONFIRMED)
      else NotDelivered("Could not start buzz CLI: " + message)
    case Closed(_, _) => CloseOutcome(parse, v, event)
  }

  function Handled(parse: Parser, timeoutMs: string, v: View, event: ChildEvent): View {
    match event
    case Spawned => v.(spawned := true)
    case StdoutData(chunk) =>
      var remaining := OUTPUT_LIMIT - |v.stdout|;
      v.(stdout := v.stdout + Prefix(chunk, remaining), stdoutOverflow := v.stdoutOverflow || |chunk| > remaining)
    case StderrData(chunk) => v.(stderr := v.stderr + Prefix(chunk, OUTPUT_LIMIT - |v.stderr|))
    case StdinFailed(message) => if v.inputError.None? then v.(inputError := Some(message)) else v
    case _ => if v.result.None? then v.(result := Some(Verdict(parse, timeoutMs, v, event))) else v
  }

  /** The state after a whole sequence of events. */
  function After(parse: Parser, timeoutMs: string, events: seq<ChildEvent>): View {
    if events == [] then INITIAL
    else Handled(parse, timeoutMs, After(parse, timeoutMs, events[..|events| - 1]), events[|events| - 1])
  }

  /** `publishBuzzReply` with its handlers as methods. */
  class Publication {
    const parse: Parser
    const timeoutMs: string
    var spawned: bool
    var stdout: seq<Ascii>
    var stderr: seq<Ascii>
    var stdoutOverflow: bool
    var inputError: Option<string>
    var settled: bool
    var outcome: PublicationOutcome

    ghost function Seen(): View
      reads this
    {
      View(spawned, stdout, stderr, stdoutOverflow, inputError, if settled then Some(outcome) else None)
    }

    constructor (parse: Parser, timeoutMs: string)
      ensures Seen() == INITIAL && this.parse == parse && this.timeoutMs == timeoutMs
    {
      this.parse := parse;
      this.timeoutMs := timeoutMs;
      spawned, stdout, stderr, stdoutOverflow := false, [], [], false;
      inputError, settled, outcome := None, false, DeliveryUnknown("");
    }

    method Finish(outcome: PublicationOutcome)
      modifies this`settled, this`outcome
      ensures settled && this.outcome == if old(settled) then old(this.outcome) else outcome
    {
      if settled {
        return;
      }
      settled := true;
      this.outcome := outcome;
    }

    method OnStdout(chunk: seq<Ascii>)
      modifies this`stdout, this`stdoutOverflow
      ensures Seen() == Handled(parse, timeoutMs, old(Seen()), StdoutData(chunk))
    {
      var remaining := OUTPUT_LIMIT - |stdout|;
      if |chunk| > remaining {
        stdoutOverflow := true;
      }
      if remaining > 0 {
        stdout := stdout + Prefix(chunk, remaining);
      }
    }

    method OnStderr(chunk: seq<Ascii>)
      modifies this`stderr
      ensures Seen() == Handled(parse, timeoutMs, old(Seen()), StderrData(chunk))
    {
      var remaining := OUTPUT_LIMIT - |stderr|;
      if remaining > 0 {
        stderr := stderr + Prefix(chunk, remaining);
      }
    }

    method OnError(message: string)
      modifies this`settled, this`outcome
      ensures Seen() == Handled(parse, timeoutMs, old(Seen()), Failed(message))
    {
      if spawned {
        Finish(DeliveryUnknown(message + UNCONFIRMED));
      } else {
        Finish(NotDelivered("Could not start buzz CLI: " + message));
      }
    }

    method OnClose(code: Option<string>, signal: Option<string>)
      modifies this`settled, this`outcome
      ensures Seen() == Handled(parse, timeoutMs, old(Seen()), Closed(code, signal))
    {
      var response := if stdoutOverflow then Unreadable else ParsePublicationResponse(parse, Decoded(stdout));
      if response.Accepted? {
        Finish(Delivered(response.eventId));
        return;
      }
      if response.Rejected? {
        Finish(NotDelivered("buzz rejected the message"));
        return;
      }
      var status := match signal case Some(s) => s case None => code.GetOr("null");
      var detail := Trim(Decoded(stderr));
      if detail == "" && inputError.Some? {
        detail := inputError.value;
      }
      if detail == "" {
        detail := "buzz CLI exited with " + status;
      }
      Finish(DeliveryUnknown(detail + UNCONFIRMED));
    }

    method OnTimeout()
      modifies this`settled, this`outcome
      ensures Seen() == Handled(parse, timeoutMs, old(Seen()), TimedOut)
    {
      Finish(DeliveryUnknown("buzz CLI timed out after " + timeoutMs + "ms" + UNCONFIRMED));
    }

    /** Delivers one event of the child process, the timer included, to its handler. */
    method Handle(event: ChildEvent)
      modifies this
      ensures Seen() == Handled(parse, timeoutMs, old(Seen()), event)
    {
      match event {
        case Spawned => spawned := true;
        case StdoutData(chunk) => OnStdout(chunk);
        case StderrData(chunk) => OnStderr(chunk);
        case Failed(message) => OnError(message);
        case Closed(code, signal) => OnClose(code, signal);
        case StdinFailed(message) =>
          if inputError.None? {
            inputError := Some(message);
          }
        case TimedOut => OnTimeout();
      }
    }

    /** Handles a whole run of the child process. */
    method HandleAll(events: seq<ChildEvent>)
      requires Seen() == INITIAL
      modifies this
      ensures Seen() == After(parse, timeoutMs, events)
    {
      for i := 0 to |events|
        invariant Seen() == After(parse, timeoutMs, events[..i])
      {
        assert events[..i + 1][..i] == events[..i];
        Handle(events[i]);
      }
      assert events[..|events|] == events;
    }
  }

  // ----- what was captured

  /** All the bytes written to standard output, however they were cut into chunks. */
  function StdoutBytes(events: seq<ChildEvent>): seq<Ascii> {
    if events == [] then []
    else
      var last := events[|events| - 1];
      StdoutBytes(events[..|events| - 1]) + if last.StdoutData? then last.chunk else []
  }

  /** All the bytes written to standard error. */
  function StderrBytes(events: seq<ChildEvent>): seq<Ascii> {
    if events == [] then []
    else
      var last := events[|events| - 1];
      StderrBytes(events[..|events| - 1]) + if last.StderrData? then last.chunk else []
  }

  /** The first 65536 bytes of a stream, or all of it. */
  function Beginning(bytes: seq<Ascii>): seq<Ascii> {
    if |bytes| > 65536 then bytes[..65536] else bytes
  }

  lemma BeginningGrows(before: seq<Ascii>, chunk: seq<Ascii>)
    ensures Beginning(before + chunk)
      == Beginning(before) + Prefix(chunk, OUTPUT_LIMIT - |Beginning(before)|)
    ensures |before + chunk| > 65536 <==> |before| > 65536 || |chunk| > OUTPUT_LIMIT - |Beginning(before)|
  {
  }

  /**
   * Chunking independence: the captured output is the first 65536 bytes of the stream and the overflow flag says
   * whether there were more, for every way of cutting the stream into chunks and mixing it with other events.
   */
  lemma {:induction false} CapturedOutput(parse: Parser, timeoutMs: string, events: seq<ChildEvent>)
    ensures var v, bytes := After(parse, timeoutMs, events), StdoutBytes(events);
      v.stdout == Beginning(bytes) && (v.stdoutOverflow <==> |bytes| > 65536)
  {
    if events != [] {
      CapturedOutput(parse, timeoutMs, events[..|events| - 1]);
      var before, last := StdoutBytes(events[..|events| - 1]), events[|events| - 1];
      if last.StdoutData? {
        BeginningGrows(before, last.chunk);
      } else {
        assert before + [] == before;
      }
    }
  }

  lemma {:induction false} CapturedErrors(parse: Parser, timeoutMs: string, events: seq<ChildEvent>)
    ensures After(parse, timeoutMs, events).stderr == Beginning(StderrBytes(events))
  {
    if events != [] {
      CapturedErrors(parse, timeoutMs, events[..|events| - 1]);
      var before, last := StderrBytes(events[..|events| - 1]), events[|events| - 1];
      if last.StderrData? {
        BeginningGrows(before, last.chunk);
      } else {
        assert before + [] == before;
      }
    }
  }

  /** What the first failure to write to the child's input said. */
  function FirstInputFailure(events: seq<ChildEvent>): Option<string> {
    if events == [] then None
    else if events[0].StdinFailed? then Some(events[0].message)
    else FirstInputFailure(events[1..])
  }

  lemma {:induction false} FirstInputFailureSnoc(events: seq<ChildEvent>, last: ChildEvent)
    ensures FirstInputFailure(events + [last]) ==
      if FirstInputFailure(events).Some? then FirstInputFailure(events)
      else if last.StdinFailed? then Some(last.message) else None
  {
    if events == [] {
      assert [last][1..] == [] && [] + [last] == [last];
    } else {
      assert (events + [last])[1..] == events[1..] + [last];
      FirstInputFailureSnoc(events[1..], last);
    }
  }

  lemma {:induction false} InputErrorIsFirst(parse: Parser, timeoutMs: string, events: seq<ChildEvent>)
    ensures After(parse, timeoutMs, events).inputError == FirstInputFailure(events)
  {
    if events != [] {
      var front, last := events[..|events| - 1], events[|events| - 1];
      InputErrorIsFirst(parse, timeoutMs, front);
      FirstInputFailureSnoc(front, last);
      assert events == front + [last];
    }
  }

  /** Two runs that wrote the same bytes are read the same, whatever the chunks. */
  lemma ResponseDependsOnBytes(parse: Parser, timeoutMs: string, first: seq<ChildEvent>, second: seq<ChildEvent>)
    requires StdoutBytes(first) == StdoutBytes(second)
    ensures var a, b := After(parse, timeoutMs, first), After(parse, timeoutMs, second);
      a.stdout == b.stdout && a.stdoutOverflow == b.stdoutOverflow
  {
    CapturedOutput(parse, timeoutMs, first);
    CapturedOutput(parse, timeoutMs, second);
  }

  // ----- what was concluded

  /** Event `i` is the first that can end the call. */
  predicate FirstSettling(events: seq<ChildEvent>, i: nat) {
    && i < |events| && IsSettling(events[i])
    && forall j :: 0 <= j < i ==> !IsSettling(events[j])
  }

  predicate WasSpawned(events: seq<ChildEvent>) {
    exists j :: 0 <= j < |events| && events[j].Spawned?
  }

  lemma {:induction false} SpawnedIffSeen(parse: Parser, timeoutMs: string, events: seq<ChildEvent>)
    ensures After(parse, timeoutMs, events).spawned <==> WasSpawned(events)
  {
    if events != [] {
      var front := events[..|events| - 1];
      SpawnedIffSeen(parse, timeoutMs, front);
      if WasSpawned(events) && !events[|events| - 1].Spawned? {
        var j :| 0 <= j < |events| && events[j].Spawned?;
        assert front[j].Spawned?;
      }
    }
  }

  lemma {:induction false} UnsettledBefore(parse: Parser, timeoutMs: string, events: seq<ChildEvent>)
    requires forall j :: 0 <= j < |events| ==> !IsSettling(events[j])
    ensures After(parse, timeoutMs, events).result == None
  {
    if events != [] {
      UnsettledBefore(parse, timeoutMs, events[..|events| - 1]);
      assert !IsSettling(events[|events| - 1]);
    }
  }

  lemma HandledKeepsResult(parse: Parser, timeoutMs: string, v: View, event: ChildEvent)
    requires v.result.Some?
    ensures Handled(parse, timeoutMs, v, event).result == v.result
  {
  }

  lemma SettledStays(parse: Parser, timeoutMs: string, events: seq<ChildEvent>)
    requires events != [] && After(parse, timeoutMs, events[..|events| - 1]).result.Some?
    ensures After(parse, timeoutMs, events).result == After(parse, timeoutMs, events[..|events| - 1]).result
  {
    HandledKeepsResult(parse, timeoutMs, After(parse, timeoutMs, events[..|events| - 1]), events[|events| - 1]);
  }

  /** The first event that can end the call fixes the outcome; whatever follows changes nothing. */
  lemma {:induction false} FirstSettlingDecides(parse: Parser, timeoutMs: string, events: seq<ChildEvent>, i: nat)
    requires FirstSettling(events, i)
    ensures After(parse, timeoutMs, events).result
      == Some(Verdict(parse, timeoutMs, After(parse, timeoutMs, events[..i]), events[i]))
  {
    if i < |events| - 1 {
      var front := events[..|events| - 1];
      FirstSettlingDecides(parse, timeoutMs, front, i);
      assert front[..i] == events[..i];
      SettledStays(parse, timeoutMs, events);
    } else {
      UnsettledBefore(parse, timeoutMs, events[..i]);
    }
  }

  /** The value is an object whose "accepted" is the given truth value. */
  predicate SaysAccepted(value: Json, accepted: bool) {
    value.Obj? && "accepted" in value.fields && value.fields["accepted"] == Bool(accepted)
  }

  /** Its "event_id" is this string of 64 hexadecimal digits. */
  predicate NamesEvent(value: Json, id: string) {
    && value.Obj? && "event_id" in value.fields && value.fields["event_id"] == Str(id)
    && |id| == 64
    && forall i :: 0 <= i < 64 ==> '0' <= id[i] <= '9' || 'a' <= id[i] <= 'f' || 'A' <= id[i] <= 'F'
  }

  /** How a response is read, in terms of the parsed value alone. */
  lemma ResponseExactly(parse: Parser, output: string)
    ensures var value, response := parse(Trim(output)), ParsePublicationResponse(parse, output);
      && (response.Rejected? <==> SaysAccepted(value, false))
      && (forall id :: response == Accepted(id) <==> SaysAccepted(value, true) && NamesEvent(value, id))
  {
  }

  /** What a closing child has said: all of its output if that is at most 65536 bytes, parsed. */
  predicate Heard(parse: Parser, events: seq<ChildEvent>, value: Json) {
    |StdoutBytes(events)| <= 65536 && value == parse(Trim(Decoded(StdoutBytes(events))))
  }

  lemma CloseExactly(parse: Parser, timeoutMs: string, before: seq<ChildEvent>, event: ChildEvent)
    requires event.Closed?
    ensures
      var outcome := CloseOutcome(parse, After(parse, timeoutMs, before), event);
      var value := parse(Trim(Decoded(StdoutBytes(before))));
      && (forall id :: outcome == Delivered(id) <==>
            Heard(parse, before, value) && SaysAccepted(value, true) && NamesEvent(value, id))
      && (outcome.NotDelivered? <==> Heard(parse, before, value) && SaysAccepted(value, false))
  {
    CapturedOutput(parse, timeoutMs, before);
    ResponseExactly(parse, Decoded(StdoutBytes(before)));
  }

  /**
   * Conservative outcome, for every sequence of child events whose first ending event is `i`: delivered exactly on
   * a close after at most 65536 bytes of output whose parsed value says "accepted": true and names an event by 64
   * hexadecimal digits; not delivered exactly on an error with no spawn before it or a close after a value that
   * says "accepted": false; unknown in every other case.
   */
  lemma ConservativeOutcome(parse: Parser, timeoutMs: string, events: seq<ChildEvent>, i: nat)
    requires FirstSettling(events, i)
    ensures After(parse, timeoutMs, events).result.Some?
    ensures
      var outcome, before := After(parse, timeoutMs, events).result.value, events[..i];
      var value := parse(Trim(Decoded(StdoutBytes(before))));
      && (forall id :: outcome == Delivered(id) <==>
            events[i].Closed? && |StdoutBytes(before)| <= 65536 && SaysAccepted(value, true) && NamesEvent(value, id))
      && (outcome.NotDelivered? <==>
            || (events[i].Failed? && !WasSpawned(before))
            || (events[i].Closed? && |StdoutBytes(before)| <= 65536 && SaysAccepted(value, false)))
  {
    FirstSettlingDecides(parse, timeoutMs, events, i);
    SpawnedIffSeen(parse, timeoutMs, events[..i]);
    if events[i].Closed? {
      CloseExactly(parse, timeoutMs, events[..i], events[i]);
    }
  }

  /** The first of the details that is not empty: standard error, the input's failure, the exit status. */
  function Detail(events: seq<ChildEvent>, close: ChildEvent): string
    requires close.Closed?
  {
    var errors, failure := Trim(Decoded(Beginning(StderrBytes(events)))), FirstInputFailure(events).GetOr("");
    if errors != "" then errors
    else if failure != "" then failure
    else "buzz CLI exited with " + (if close.signal.Some? then close.signal.value else close.code.GetOr("null"))
  }

  lemma CloseReason(parse: Parser, timeoutMs: string, before: seq<ChildEvent>, event: ChildEvent)
    requires event.Closed?
    ensures var outcome := CloseOutcome(parse, After(parse, timeoutMs, before), event);
      && (outcome.NotDelivered? ==> outcome.reason == "buzz rejected the message")
      && (outcome.DeliveryUnknown? ==> outcome.reason == Detail(before, event) + UNCONFIRMED)
  {
    CapturedErrors(parse, timeoutMs, before);
    InputErrorIsFirst(parse, timeoutMs, before);
  }

  /** What the client is told when a call ends without delivering: the reason, from the events alone. */
  lemma ReasonExactly(parse: Parser, timeoutMs: string, events: seq<ChildEvent>, i: nat)
    requires FirstSettling(events, i)
    ensures After(parse, timeoutMs, events).result.Some?
    ensures
      var outcome, before := After(parse, timeoutMs, events).result.value, events[..i];
      !outcome.Delivered? ==>
        outcome.reason ==
          match events[i]
          case TimedOut => "buzz CLI timed out after " + timeoutMs + "ms" + UNCONFIRMED
          case Failed(message) =>
            if WasSpawned(before) then message + UNCONFIRMED
            else "Could not start buzz CLI: " + message
          case _ =>
            if outcome.NotDelivered? then "buzz rejected the message"
            else Detail(before, events[i]) + UNCONFIRMED
  {
    FirstSettlingDecides(parse, timeoutMs, events, i);
    if events[i].Closed? {
      CloseReason(parse, timeoutMs, events[..i], events[i]);
    } else {
      SpawnedIffSeen(parse, timeoutMs, events[..i]);
    }
  }

  /** Until an event that can end the call, the promise is pending. */
  lemma PendingUntilSettled(parse: Parser, timeoutMs: string, events: seq<ChildEvent>)
    ensures After(parse, timeoutMs, events).result.Some? <==> exists i :: FirstSettling(events, i)
  {
    if exists j :: 0 <= j < |events| && IsSettling(events[j]) {
      var i := EarliestSettling(events);
      FirstSettlingDecides(parse, timeoutMs, events, i);
    } else {
      UnsettledBefore(parse, timeoutMs, events);
    }
  }

  lemma {:induction false} EarliestSettling(events: seq<ChildEvent>) returns (i: nat)
    requires exists j :: 0 <= j < |events| && IsSettling(events[j])
    ensures FirstSettling(events, i)
  {
    i := 0;
    while !IsSettling(events[i])
      invariant i < |events| && forall j :: 0 <= j < i ==> !IsSettling(events[j])
      decreases |events| - i
    {
      i := i + 1;
    }
  }
}
