# Publishing a reply once: a model of the Buzz ACP adapter, and of four smaller algorithms

The adapter (`packages/eve-buzz-acp-adapter`) sits between the Buzz client and an eve agent. It passes their
messages on, collects what the agent says in each prompt's session, and when a prompt ends it publishes the collected
text as a Buzz reply before it lets the client see the response. It is meant to publish a reply at most once per
channel and event, never to report a success without a publication, and never to retry a delivery it is unsure of.

The project models that protocol and proves what it keeps, at two grains:

- **One process** (`Proxy`, `ProxyMessages`, `ProxyRuns`, `ProxyHistory`, `ProxyStreams`). Code between two awaits is
  one step; the
  output loop handles one message at a time; steps of the input loop may fall at any of its awaits. The state
  directory is reliable and nobody else uses it, but it may hold anything to begin with. `Proxy.AcpProxy` is the code,
  with its two maps and its turn objects updated in place; every method is proved equal to a step function on values,
  and the theorems are about all runs of those steps.
- **Many processes, one file operation per step** (`PublicationProtocol`, `PublicationSafety`, `PublicationOnce`,
  `PublicationTiming`, `PublicationRaces`). Any number of processes share one directory, interleave freely, and may
  crash at any point. A file remembers which creation made it, so that deleting or renaming somebody else's lock is
  visible.

`PublicationAlone` joins the two: a call of `reservePublication` that nobody interferes with terminates and is the one
atomic step that the one-process grain uses; `PublicationFiles.StateDirectory` is the same call as imperative code.

What the code does not give is stated too. `packages/eve-buzz-acp-adapter/README.md:87` promises coordination across
processes, and no automatic retry of an unconfirmed send. Across processes "at most once" fails in three ways:

- The markers are looked at only before the lock is created and not again after it (publication-state.ts:30-34).
  `PublicationRaces.MarkerCheckRace` is a run of two processes, no crash and no stale lock, that publishes twice.
- A process that crashes inside its publish call leaves nothing but a lock, and `PublicationRaces.CrashHidesTheCall`
  shows that the directory does not tell such a lock from one whose holder had not published yet. Once it is stale,
  line 53 removes it and the reply is sent again: `PublicationRaces.AbandonedPublishRace` does so with no live lock
  touched and no two live holders at any time.
- Line 53 goes by the path: a process may delete a lock other than the one it found stale, and then two live processes
  hold one key and both publish (`PublicationRaces.StaleRemovalRace`).

`PublicationOnce.AtMostOnceExactly` says, for every run, when the guarantee holds, and `AtMostOnceWhenSpared` that the
first two ways are the only ones as long as stale-lock removals spare the locks of live processes;
`AtMostOnceWithRecheck` that a second look at the markers would close the first. `PublicationTiming.PunctualLocksKeptExactly`
says, crashes allowed, that a live process loses its lock exactly the third way; `SeenRemovalsSpareTheLiving` that
comparing the file before removing it would do; and `PunctualRunsAreUndisturbed` that without crashes no lock goes stale.
The last three ask for punctual holders: the stale age is twice the publish timeout, the publish call settles within one,
and a holder must spend less than one outside it. Success is never reported without a confirmed publish call
(`PublicationSafety.SuccessIsConfirmed`, and `ProxyRuns.NoFalseSuccess` for what the client is told).

The other modules stand alone: the publisher's event machine (`Publisher`), the reading of Buzz prompts
(`BuzzContext`), the benchmark table (`BenchmarkRows`, `RowOrder`), shell quoting (`ShellQuote`), the CLI freshness
check (`WorkspaceCli`) and the logo crop (`CropLogo`).

Parameters: `Options.lex` is any classifier of prompt lines, and where the connector's own instruction is concerned any
that takes a block's first line for a header only if the text has that header's opening characters;
`Publisher.Parser` is any JSON parser; `CropLogo.Measure` is any per-pixel measure of ink. Publication keys stand for
the digested text, SHA-256 being taken as injective.

## Model

| member | source | states |
|---|---|---|
| ProxyRuns.PublishedAtMostOnce | packages/eve-buzz-acp-adapter/src/proxy.ts:175-227 | one process, every run and key: never two publish calls that may both have delivered, at most one ends delivered or unknown, and none starts after it |
| ProxyRuns.NoFalseSuccess | packages/eve-buzz-acp-adapter/src/proxy.ts:167-227 | one process, every run: a gated turn is answered with eve's own end_turn response iff the key's published marker is then in place, else with the -32603 error; the marker was there to begin with or its publish call was confirmed |
| ProxyRuns.GateAnswerExactly | packages/eve-buzz-acp-adapter/src/proxy.ts:184-227 | one process, every run: which answer each ending gives - success on an existing or new published marker, the error exactly on a previous unknown delivery, a fresh lock, or an outcome that is not delivered |
| ProxyRuns.MarkerIsConfirmed | packages/eve-buzz-acp-adapter/src/proxy.ts:212-217 | one process, every run: a published marker that was not there to begin with stands for a confirmed publish call |
| ProxyRuns.LostLockIsReported | packages/eve-buzz-acp-adapter/src/proxy.ts:208-227 | a commit or markUnknown that finds no lock fails and is answered with the error |
| ProxyRuns.RejectedMayBePublishedAgain | packages/eve-buzz-acp-adapter/src/proxy.ts:204-207 | one process, every run: settling a rejected call takes the lock away and leaves no marker, so the next reservation of the key goes through to another publish call |
| ProxyHistory.TurnsTellHistory | packages/eve-buzz-acp-adapter/src/proxy.ts:109-145 | every run: a turn's text is the in-order concatenation of its session's agent text since its prompt, its route is the prompt's, and it is cancelled iff its session was cancelled since |
| ProxyHistory.GatedExactly | packages/eve-buzz-acp-adapter/src/proxy.ts:162-183 | every run: a response is gated on a publication iff it completes the turn, no cancel came since the prompt, and something not blank was said since; the text to publish is exactly that, trimmed, for the prompt's route |
| ProxyHistory.CancelledTurnsAreNotPublished | packages/eve-buzz-acp-adapter/src/proxy.ts:120-173 | every run: after a session/cancel for the session that a registered turn's prompt names, that turn's response goes straight to the client and nothing is published |
| ProxyStreams.RequestsAreOutstanding | packages/eve-buzz-acp-adapter/src/proxy.ts:87-154 | every run: `requests` holds exactly the client's unanswered requests, each with the method of the last one of its id |
| ProxyStreams.TurnsAreOutstandingPrompts | packages/eve-buzz-acp-adapter/src/proxy.ts:109-154 | every run with ids unique while outstanding: `turns` holds exactly the outstanding session/prompt requests and the one being settled |
| ProxyStreams.NothingLeftWhenAllAnswered | packages/eve-buzz-acp-adapter/src/proxy.ts:152-173 | with unique ids, both maps are empty once every request is answered |
| ProxyStreams.StreamsAreConserved | packages/eve-buzz-acp-adapter/src/proxy.ts:84-229 | every run: eve gets every client message not answered locally, once and in order; the client gets the local answers interleaved with one image of each message of eve's, in order |
| ProxyStreams.ModelAddedExactly | packages/eve-buzz-acp-adapter/src/proxy.ts:152-160 | every run: a response gains the authored model iff it answers an outstanding session/new without error and a model is set, and is otherwise unchanged |
| ProxyStreams.ForwardedPromptKeepsRoute | packages/eve-buzz-acp-adapter/src/proxy.ts:109-119 | a prompt reaches eve with its session, its route and its own blocks, the instruction appended |
| Proxy.KeyForIdInjective | packages/eve-buzz-acp-adapter/src/proxy.ts:48 | string, number, null and boolean ids share a bookkeeping key only if equal |
| Proxy.AcpProxy.constructor | packages/eve-buzz-acp-adapter/src/proxy.ts:64-65 | the proxy starts with empty maps |
| Proxy.AcpProxy.HandleClientMessage | packages/eve-buzz-acp-adapter/src/proxy.ts:86-129 | one round of the input loop takes the whole proxy to the step function's next state |
| Proxy.AcpProxy.RegisterTurn | packages/eve-buzz-acp-adapter/src/proxy.ts:109-117 | a new turn object replaces any under the prompt's key and shares nothing with the others; it has the session named by the prompt's params, if that is a string, the route of the params' prompt, no text, and is not cancelled |
| Proxy.AcpProxy.CancelSession | packages/eve-buzz-acp-adapter/src/proxy.ts:120-127 | the loop cancels exactly the turns of the session |
| Proxy.AcpProxy.AppendText | packages/eve-buzz-acp-adapter/src/proxy.ts:139-145 | the loop appends the chunk to exactly the turns of the session |
| Proxy.AcpProxy.HandleEveMessage | packages/eve-buzz-acp-adapter/src/proxy.ts:138-183 | one round of the output loop, up to its end or first await, takes the proxy to the step function's next state |
| Proxy.AcpProxy.GateTurn | packages/eve-buzz-acp-adapter/src/proxy.ts:162-183 | an answered turn is passed on, refused for want of a route, or held back for publication |
| Proxy.AcpProxy.ResumeReserved | packages/eve-buzz-acp-adapter/src/proxy.ts:184-203 | what the output loop does with each result of the reservation |
| Proxy.AcpProxy.ResumePublished | packages/eve-buzz-acp-adapter/src/proxy.ts:197-212 | the outcome decides how the reservation is settled |
| Proxy.AcpProxy.ResumeSettled | packages/eve-buzz-acp-adapter/src/proxy.ts:204-227 | the client is answered after the reservation is settled |
| Proxy.AcpProxy.ResumeWithError | packages/eve-buzz-acp-adapter/src/proxy.ts:218-227 | a store operation that throws turns into the error response |
| Json.TrimEmptyIffBlank | packages/eve-buzz-acp-adapter/src/proxy.ts:168-169 | the trimmed text is empty iff the text is all white space |
| Json.TrimExactly | packages/eve-buzz-acp-adapter/src/proxy.ts:168 | trimming takes all the white space off both ends of a text and nothing else |
| ProxyMessages.RequestsAndResponses | packages/eve-buzz-acp-adapter/src/proxy.ts:87-150 | requests are the messages with an id and a method, responses those with an id and no method |
| ProxyMessages.PromptsAndCancelsExactly | packages/eve-buzz-acp-adapter/src/proxy.ts:109-122 | which messages open and cancel turns, by their properties |
| ProxyMessages.AgentTextExactly | packages/eve-buzz-acp-adapter/src/proxy.ts:259-272 | a message of eve's carries a text iff it is a session/update with that text in an agent_message_chunk |
| ProxyMessages.CompletedExactly | packages/eve-buzz-acp-adapter/src/proxy.ts:167 | a response completes its turn iff it has no error and its result's stopReason is "end_turn" |
| ProxyMessages.LocalExactly | packages/eve-buzz-acp-adapter/src/model.ts:23-34 | a request is answered locally iff it chooses the authored model and there is one |
| ProxyMessages.ModelAnswerExactly | packages/eve-buzz-acp-adapter/src/proxy.ts:92-98 | a local answer bears the request's id and offers the authored model, as current and alone |
| ProxyMessages.ForwardedExactly | packages/eve-buzz-acp-adapter/src/proxy.ts:102-119 | what eve is sent: prompts with the instruction block after their own, new sessions with the cwd unless there is a target, anything else as it came, and no other property of either changed |
| ProxyMessages.ExtendedExactly | packages/eve-buzz-acp-adapter/src/proxy.ts:155-160 | the model is offered in a session/new result without error, whose other properties and the message's stay |
| ProxyMessages.ErrorReplyExactly | packages/eve-buzz-acp-adapter/src/proxy.ts:222-226 | the error reply bears the response's id, the code -32603, the detail in its message, and no result |
| PublicationFiles.StateDirectory.Reserve | packages/eve-buzz-acp-adapter/src/publication-state.ts:20-55 | the recursive reservation, alone on the directory, makes at most two attempts; what it returns and leaves, case by case, in terms of the files |
| PublicationFiles.StateDirectory.Settle | packages/eve-buzz-acp-adapter/src/publication-state.ts:57-67 | on the directory: a rejection removes the lock and nothing else; a commit or markUnknown leaves no lock but the lock's file under the marker's name, or, without the lock, changes nothing and fails |
| PublicationFiles.StateDirectory.CreateExclusive | packages/eve-buzz-acp-adapter/src/publication-state.ts:34-38 | creation succeeds iff the path is free and changes nothing otherwise |
| PublicationFiles.KeyIdentifiesReply | packages/eve-buzz-acp-adapter/src/publication-state.ts:14-18 | the digested text identifies the reply by channel and event and nothing else, provided channel ids hold no NUL |
| PublicationAlone.AloneIsAtomic | packages/eve-buzz-acp-adapter/src/publication-state.ts:20-55 | file operation by file operation, a call left alone terminates with the result and the directory of the one-step definition |
| PublicationAlone.SettlingIsAtomic | packages/eve-buzz-acp-adapter/src/publication-state.ts:57-67 | the file operation that settles a reservation leaves the directory of the one-step definition, and says whether it failed |
| PublicationSafety.LocksKeptExactly | packages/eve-buzz-acp-adapter/src/publication-state.ts:33-67 | many processes, crashes allowed, no timing asked for: of all steps only stale-lock removals ever take a live holder's lock (the condition on such removals is `PublicationTiming.PunctualLocksKeptExactly`) |
| PublicationSafety.MutualExclusionAlways | packages/eve-buzz-acp-adapter/src/publication-state.ts:33-67 | while stale-lock removals spare live locks, no two live processes ever hold one key |
| PublicationSafety.LostLockAdmitsSecondHolder | packages/eve-buzz-acp-adapter/src/publication-state.ts:30-38 | from any state in which a live holder has lost its lock, an idle process reaches a second reservation of the key in four steps |
| PublicationSafety.LockExistsIffHeld | packages/eve-buzz-acp-adapter/src/publication-state.ts:33-67 | while no stale lock is removed, a key's lock file exists iff exactly one process, crashed or not, holds the key |
| PublicationSafety.MarkerPermanence | packages/eve-buzz-acp-adapter/src/publication-state.ts:30-67 | every run, crashes and stale removals included: an attempt that begins after its key was marked never obtains a reservation and can only come back "published" or "unknown" |
| PublicationSafety.ChecksFindMarker | packages/eve-buzz-acp-adapter/src/publication-state.ts:30-41 | every run: a call under way, its checks after a failed creation included, comes back with "published" or "unknown" if the marker is there before its check of it |
| PublicationSafety.StatLeadsOn | packages/eve-buzz-acp-adapter/src/publication-state.ts:42-54 | after looking at the lock a call is refused iff the lock is there and young, goes on to remove it iff it is there and not young, and starts over iff it is gone |
| PublicationSafety.OnlyYoungLocksRefuse | packages/eve-buzz-acp-adapter/src/publication-state.ts:50-52 | a call is refused in no other way |
| PublicationSafety.ResultsAreBacked | packages/eve-buzz-acp-adapter/src/publication-state.ts:30-63 | every run: a process that was told "published", or has committed, has the published marker there; likewise for unknown |
| PublicationSafety.SuccessIsConfirmed | packages/eve-buzz-acp-adapter/src/publication-state.ts:30-63 | no false success, every run, crashes and lost locks included: behind a process that was told "published" or has committed stands a confirmed publish call for the key |
| PublicationSafety.RetryBound | packages/eve-buzz-acp-adapter/src/publication-state.ts:33-55 | every run: a call makes at most two attempts plus one per lock created for its key by others since it began |
| PublicationSafety.RestartsBounded | packages/eve-buzz-acp-adapter/src/publication-state.ts:33-55 | the same in terms of the run alone: since a call began it has started over at most once more often than others have created a lock for its key |
| PublicationSafety.WritingRefreshesLock | packages/eve-buzz-acp-adapter/src/publication-state.ts:35-38 | writing the lock's contents sets the modification time of that file, wherever it has been moved, and of no other |
| PublicationOnce.AtMostOnceExactly | packages/eve-buzz-acp-adapter/src/publication-state.ts:30-67 | every run of many processes, crashes and stale removals included: at most one publication per key iff no publish call is made while the key has a marker, another publish call not yet settled (its process crashed or not), or a settlement that failed for want of the lock |
| PublicationOnce.AtMostOnceWhenSpared | packages/eve-buzz-acp-adapter/src/publication-state.ts:30-67 | while stale removals spare the living, crashes allowed: at most once iff no publish call is made over a marker or after a process that crashed with a publish call under way |
| PublicationOnce.AtMostOnceUndisturbed | packages/eve-buzz-acp-adapter/src/publication-state.ts:30-67 | while no stale lock is removed, crashes allowed: at most once iff no publish call is made over a marker |
| PublicationOnce.CallsConserved | packages/eve-buzz-acp-adapter/src/publication-state.ts:57-67 | every run: the publish calls that may have delivered are those some process still has under way and those settled |
| PublicationOnce.HoldingKeepsMarkers | packages/eve-buzz-acp-adapter/src/publication-state.ts:57-67 | while removals spare the living, no step makes a marker of a key appear that a live process goes on holding |
| PublicationOnce.AtMostOnceWithRecheck | packages/eve-buzz-acp-adapter/src/publication-state.ts:30-38 | while removals spare the living, in runs whose starters have seen the key unmarked since they got hold of it: no publish call is made over a marker, and at most once holds iff none follows a call abandoned by a crash |
| PublicationTiming.TimeSpent | packages/eve-buzz-acp-adapter/src/proxy.ts:197-212 | while a holder takes no step, time goes by inside its publish call if it is in one, and outside otherwise |
| PublicationTiming.TakesLiveLockExactly | packages/eve-buzz-acp-adapter/src/publication-state.ts:41-54 | punctual runs, crashes allowed: a stale-lock removal takes a live process's lock iff the file it deletes is not the one it found stale and that file's creator is alive and still holds with it |
| PublicationTiming.PunctualLocksKeptExactly | packages/eve-buzz-acp-adapter/src/publication-state.ts:33-67 | punctual runs, crashes allowed: live holders keep their locks throughout iff no removal is of that kind |
| PublicationTiming.SeenRemovalsSpareTheLiving | packages/eve-buzz-acp-adapter/src/publication-state.ts:41-54 | punctual runs, crashes allowed, whose removals delete only the file found stale: no live lock is taken, and no two live processes ever hold one key |
| PublicationTiming.PunctualRunsAreUndisturbed | packages/eve-buzz-acp-adapter/src/proxy.ts:179-212 | timed safety: if stale ages are twice the publish timeout or more, publish calls settle within one and holders spend less than one outside, a crash-free run never finds a lock stale, and mutual exclusion holds |
| PublicationTiming.PunctualAtMostOnce | packages/eve-buzz-acp-adapter/src/proxy.ts:179-217 | such runs publish at most once per key iff no publish call is made over a marker |
| PublicationTiming.YoungRunsAreUndisturbed | packages/eve-buzz-acp-adapter/src/publication-state.ts:43-54 | while no lock's age reaches the stale age of a process that has made a call, crashes or not, no lock is removed as stale |
| PublicationRaces.MarkerCheckRace | packages/eve-buzz-acp-adapter/src/publication-state.ts:30-38 | a run of two punctual processes, no crash and nothing stale, that publishes one reply twice |
| PublicationRaces.StaleRemovalRace | packages/eve-buzz-acp-adapter/src/publication-state.ts:43-54 | a punctual run in which two processes found one abandoned lock stale, both end up holding the key, and both publish |
| PublicationRaces.AbandonedPublishRace | packages/eve-buzz-acp-adapter/src/publication-state.ts:43-55 | a punctual run in which one process crashes inside its publish call and another reclaims its stale lock and publishes again, though no marker was missed, no live lock taken, and no two live processes ever held the key |
| PublicationRaces.CrashHidesTheCall | packages/eve-buzz-acp-adapter/src/publication-state.ts:33-38 | two runs with the same directory, one whose crashed holder had called publish and one whose had not |
| PublishLog.AtMostOnceMeans | packages/eve-buzz-acp-adapter/README.md:87 | counting publish calls that may have delivered below two means: at most one delivery, and no call after it |
| Publisher.ConservativeOutcome | packages/eve-buzz-acp-adapter/src/publisher.ts:70-143 | every event sequence: delivered iff closed after at most 65536 bytes whose parsed value has "accepted" true and an "event_id" of 64 hex digits, that being the id; not delivered iff an error without a spawn or a close after a value with "accepted" false; unknown otherwise |
| Publisher.ReasonExactly | packages/eve-buzz-acp-adapter/src/publisher.ts:73-125 | every event sequence: the reason given when it is not delivered or unknown, standard error coming before the input's failure and that before the exit status |
| Publisher.ResponseExactly | packages/eve-buzz-acp-adapter/src/publisher.ts:128-143 | how a response is read, in terms of the parsed value alone |
| Publisher.FirstSettlingDecides | packages/eve-buzz-acp-adapter/src/publisher.ts:70-82 | every event sequence: the first event that can end the call fixes the outcome |
| Publisher.PendingUntilSettled | packages/eve-buzz-acp-adapter/src/publisher.ts:70-82 | the promise is resolved iff such an event has happened, the timeout being one |
| Publisher.CapturedOutput | packages/eve-buzz-acp-adapter/src/publisher.ts:87-91 | every chunking: the captured output is the first 65536 bytes, and the overflow flag is set iff there were more |
| Publisher.CapturedErrors | packages/eve-buzz-acp-adapter/src/publisher.ts:92-95 | the same of standard error |
| Publisher.ResponseDependsOnBytes | packages/eve-buzz-acp-adapter/src/publisher.ts:87-105 | two runs that wrote the same bytes are read alike |
| Publisher.Publication.Handle | packages/eve-buzz-acp-adapter/src/publisher.ts:63-123 | each handler takes the call's variables to the event function's next state |
| Publisher.Publication.HandleAll | packages/eve-buzz-acp-adapter/src/publisher.ts:63-143 | over a whole run of the child the call's variables are the fold of the event function |
| Publisher.Publication.OnStdout | packages/eve-buzz-acp-adapter/src/publisher.ts:87-91 | bounded capture of one chunk |
| Publisher.Publication.OnClose | packages/eve-buzz-acp-adapter/src/publisher.ts:104-120 | the close handler, with the order in which it looks for a detail |
| BuzzContext.InstructionKeepsRoute | packages/eve-buzz-acp-adapter/src/buzz-context.ts:10-42 | for every prompt, appending the connector's instruction leaves the route unchanged |
| BuzzContext.InstructionIsInert | packages/eve-buzz-acp-adapter/src/buzz-context.ts:12-89 | the instruction opens like none of the header patterns, so no reading of it can be a context or an event |
| BuzzContext.AcceptedBatchIsNumbered | packages/eve-buzz-acp-adapter/src/buzz-context.ts:71-94 | a batch is accepted iff its event headers are numbered exactly 1..n for its declared n, and then its last event is the trigger |
| BuzzContext.TriggerExactly | packages/eve-buzz-acp-adapter/src/buzz-context.ts:57-84 | a block triggers an event in three ways and no other: a lone event's header, id and channel; a new message's header, an empty line and the head of event 1; a batch whose heads are numbered as declared |
| BuzzContext.EventAtExactly | packages/eve-buzz-acp-adapter/src/buzz-context.ts:75-80 | the head of an event is a header, an id and a channel line in a row |
| BuzzContext.PromptRouteExactly | packages/eve-buzz-acp-adapter/src/buzz-context.ts:10-54 | every prompt, from its JSON: the route is that of its one context block and its one block with a triggering event among any other items, with the context's first channel id and first reply anchor; without exactly one of each, without a channel, or if it is no array, there is none |
| BuzzContext.BatchPromptRoute | packages/eve-buzz-acp-adapter/src/buzz-context.ts:10-54 | a prompt whose text blocks are a context and a rendered batch, among other items: routed to the channel and the last event, or to none if n is below 2 or some content imitates the head of an event |
| BuzzContext.LonePromptRoute | packages/eve-buzz-acp-adapter/src/buzz-context.ts:10-69 | the same with a lone event: routed to it whatever its content |
| BuzzContext.BatchRoundTrip | packages/eve-buzz-acp-adapter/src/buzz-context.ts:71-94 | every rendered batch of two or more is read back as its last event iff no content holds the three lines that head an event, and otherwise as no event |
| BenchmarkRows.RowFromResults | apps/docs/lib/evals/results.ts:73-187 | a row's rates and average duration in terms of the published results: passed runs of the experiment's measured results, null as 0, against the expected runs; durations weighted by valid runs |
| BenchmarkRows.CaseRowsFromResults | apps/docs/lib/evals/results.ts:98-128 | one case row for every case with a result of the row's experiments, each with the rates and the three averages that the published results of the case give |
| BenchmarkRows.RowDateFromResults | apps/docs/lib/evals/results.ts:101-105 | a row's date is the last in string order of its measured results' dates, and null iff none has one |
| BenchmarkRows.BelowExactly | apps/docs/lib/evals/results.ts:104 | string order: the first difference decides, an end coming before any character |
| BenchmarkRows.FindIsFirst | apps/docs/lib/evals/results.ts:76-77 | the experiment of a treatment is the first one listed with it |
| BenchmarkRows.OverallRateIsMeanOfCases | apps/docs/lib/evals/results.ts:82-126 | each overall success rate is the sum of the per-case rates, null as 0, over the case count, and is null iff nothing is expected |
| BenchmarkRows.RowRatesAreMeans | apps/docs/lib/evals/results.ts:73-130 | a row's overall rates are the means of the rates its case rows show |
| BenchmarkRows.OverallAverageCombinesCases | apps/docs/lib/evals/results.ts:87-118 | the overall average is the run-weighted combination of the per-case averages |
| BenchmarkRows.RowDurationCombinesCases | apps/docs/lib/evals/results.ts:87-118 | a row's overall duration is the run-weighted mean of the durations its case rows show, and null iff there was no run |
| BenchmarkRows.AverageWithin | apps/docs/lib/evals/results.ts:174-187 | a weighted average lies between any bounds of the means it averages |
| RowOrder.BeforeIsLexicographic | apps/docs/lib/evals/results.ts:131-136 | with JavaScript's infinities and NaN the comparator is lexicographic by baseline rate, guided rate and recency, nulls last |
| RowOrder.RowsSortLexicographically | apps/docs/lib/evals/results.ts:131-195 | which of two benchmark rows comes first: higher baseline rate, then higher guided rate, then later date, a missing rate or date last |
| RowOrder.RowsOrderExactly | apps/docs/lib/evals/results.ts:131-195 | the comparator is a strict weak order on a list of benchmark rows iff no row with an unparsable date has the same rates as two rows that stand for different times |
| RowOrder.UnparsableDateBreaksOrder | apps/docs/lib/evals/results.ts:131-195 | three rows, the middle one with an unparsable date, on which ties do not chain |
| ShellQuote.QuoteRoundTrip | apps/benchmarks/lib/native-authoring-setup.ts:104-106 | a quoted value is read as one word equal to it iff it has no NUL |
| ShellQuote.RunLineReads | apps/benchmarks/lib/native-authoring-setup.ts:84-93 | the line built by `run` is read as a call of bash with the command as one argument |
| ShellQuote.QuotedAmongPlain | apps/benchmarks/lib/native-authoring-setup.ts:36-40 | a quoted argument among plain words, or joined to one, is read back unchanged |
| ShellQuote.NestedQuotingRoundTrip | apps/benchmarks/lib/native-authoring-setup.ts:36-93 | two levels of quoting come apart in two readings: the package spec survives both |
| WorkspaceCli.GetLatestDirectoryMtimeMs | packages/eve/bin/eve.js:53-75 | the result is the greatest modification time in the tree |
| WorkspaceCli.GetLatestBuildInputMtimeMs | packages/eve/bin/eve.js:77-96 | the result is the greatest time under the existing inputs, or zero |
| WorkspaceCli.CanBuildWorkspaceCli | packages/eve/bin/eve.js:98-114 | true iff bin, tsconfig.json, src, the vendoring script and every post-build script exist |
| WorkspaceCli.EnsureBuiltCli | packages/eve/bin/eve.js:242-299 | the build is skipped iff there is an entrypoint and the package cannot rebuild or the entrypoint is fresh; a build runs vendoring, the compiler and the scripts in their order unless one fails |
| WorkspaceCli.FreshMeansNewest | packages/eve/bin/eve.js:53-96 | an entrypoint is fresh iff it has a time not before the epoch and no node at any depth under any build input is newer |
| CropLogo.FindBox | apps/docs/lib/integrations/og-image.tsx:88-105 | the loops find a box that holds every inked pixel and has one on each edge, or none when there is no ink |
| CropLogo.CopyBox | apps/docs/lib/integrations/og-image.tsx:107-111 | the copy has the box's size and its pixels |
| CropLogo.Crop | apps/docs/lib/integrations/og-image.tsx:88-112 | the part inside the tight box, or the image itself when it has no ink |
| CropLogo.TightBoxIsUnique | apps/docs/lib/integrations/og-image.tsx:88-105 | an image has at most one tight box |
| CropLogo.CropIsDetermined | apps/docs/lib/integrations/og-image.tsx:88-112 | the crop is a function of the image: any two images that meet its description are equal |
| CropLogo.CropIsIdempotent | apps/docs/lib/integrations/og-image.tsx:88-112 | cropping a cropped image gives it back |

## Left out

- ProxyRuns.PublishedAtMostOnce: one process on its directory, no crash, and store operations that do not fail for other reasons; across processes see `PublicationOnce`.
- PublicationFiles.KeyIdentifiesReply: asks that channel ids hold no NUL; the pattern of buzz-context.ts:3 admits only hexadecimal digits and dashes, but patterns are not part of this model.
- Publisher.CapturedOutput: bytes that decode one to one; a multi-byte character cut by a chunk boundary decodes to replacement characters in the source.
- BuzzContext.PromptRouteExactly: works on classified lines; how the regular expressions treat white space across line ends and carriage returns is not modelled.
- ShellQuote.NestedQuotingRoundTrip: the word reader covers blanks, single quotes and backslashes and gives no answer on other special characters, so the wrapper script with its double-quoted parameter is not read.
- PublicationTiming.PunctualRunsAreUndisturbed: one clock for all processes that never goes back; rounding of clock readings and modification times is not modelled.
- Child-process spawning, streams, line reading, JSON parsing and printing: messages are parsed values and child events an arbitrary sequence.
- Params and results that are arrays or strings: types.ts declares them as records, and spreading one here copies nothing.
- Proxy shutdown, end of input and kill handling (proxy.ts:231-256), and eve's input closing early.
- The publish command's arguments and environment (publisher.ts:32-42), and log output.
- Author gate, environment filtering, installer, target discovery and command-line parsing.
- The order of the case rows, the cost column of the benchmark table, and the sort routine itself.
- Floating-point rounding, and the luminance formula behind the ink measure.
- Symbolic links, unreadable directories and other file-system errors in the freshness check.
- The remaining parts of the repository: runtime, documentation site, templates, registries and end-to-end fixtures.
