# viper-boxd in Dafny

A model of the parts of viper-boxd where order, failure and interleaving matter, with proofs of what they
keep. Nothing here is executed; everything is checked by `dafny verify dfyconfig.toml`.

- **Admission and lifecycle**. The admission controller (`Admission`, `AdmissionOrder`) is a class over its
  `active` set and `queued` list. The helper is modelled twice. With every handler and watchdog firing atomic
  (`HelperModel`, `HelperChecks`, `HelperRuns`, `HelperAnswers`, `HelperLeaks`, `HelperRepeats`,
  `HelperObject`), it is a class over `states`, `pending` and the controller; each method equals a step
  function, and the lemmas follow the steps over whole runs. With one step per lock acquisition
  (`HelperThreads`, `HelperTurns`, `HelperWork`, `HelperSlots`, `HelperPanics`, `HelperPending`, `HelperDrops`,
  `HelperRaces`, `HelperSolo`), it is a transition system of the request thread and any number of TTL watchdog
  threads, each with a program counter. A handler that is not interrupted there does what the atomic one does
  (`HelperSolo`). In every interleaving the controller's invariant, FIFO order, work conservation and the
  capacity theorem hold. The links between the three structures do not, because the lock is dropped between the
  admission of a waiting Box and the insertion of its parameters; what that can do, and exactly when, is proved
  in `HelperPanics`, `HelperPending`, `HelperSlots` and `HelperDrops`, with runs that show it in `HelperRaces`.
- **Calendar** (`Calendar`). The closed-form UTC timestamp against a calendar that counts days and seconds.
- **Streaming** (`Streaming`, `StreamEnds`, `StreamLines`, `ProviderStreams`, `EventStreams`, `Gateway`,
  `GatewayBudget`, `Framing`). Provider lines, producer thread, channel, consumer with idle timeouts, numbered
  frames, capped byte lines, client loop. Schedules and timeouts are arbitrary lists of moves.
- **Lineage** (`LineageRecords`, `LineageDisk`, `LineageRuns`, `LineageStores`). Policies and parent chains, the
  directory on disk, stops in the middle of a write, reopening.
- **Research text and hosts** (`WhiteSpace`, `HtmlText`, `HtmlPieces`, `HtmlTwice`, `HtmlShown`, `HtmlCase`,
  `Hosts`).

`Outcomes`, `Collections`, `Bytes` and `Text` hold what the components share.

What the environment decides is an argument: host answers (`Host`, one per Box ID in a drain, since a drain
tries no Box twice), success of `systemctl` and of scratch removal, which socket writes succeed, the outcome of
every disk step, and the decoders. JSON is a pair of functions assumed to round-trip what is sent (`Faithful`, `Agree`).

## Where code and documents differ

- `BACKEND_CONTRACT.md:138-149` calls KILL and CLEANUP idempotent. With atomic handlers, a kill after one that
  succeeded changes nothing. It succeeds exactly if the first one stopped a running Box and `systemctl stop`
  succeeds again; if the first one cancelled a Box that was QUEUED, every later one fails with `ERR_HANDLE_UNKNOWN`
  (`HelperRepeats.KillAgain`). A Box that timed out does not keep that final state: a kill makes its record
  KILLED (`HelperRepeats.KillAfterTimeout`). A repeated cleanup fails with `ERR_HANDLE_UNKNOWN`
  (`HelperRepeats.CleanupAgain`).
- Cleanup of a Box that is still STARTING drops its record and not its slot. With atomic handlers the slot stays
  taken for good: "slots taken = Boxes STARTING" holds in exactly the runs without such a cleanup
  (`HelperRuns.SlotsAreStartingBoxes`); any Box spawned first and cleaned at once shows it
  (`HelperLeaks.EarlyCleanupLeaks`). With one step per lock acquisition, and as long as no Box ID has been
  started twice, the slot comes back exactly if a watchdog had already found the Box STARTING and was about to
  mark it when the record was dropped (`HelperDrops.DroppedSlotExactly`; a run in
  `HelperRaces.EarlyCleanupReleased`); otherwise it is taken for good there too (`HelperDrops.LeaksForGood`).
- Between the admission of a waiting Box and the insertion of its parameters, a watchdog's drain can take it off
  the queue and pass it over. It stays QUEUED (`HelperRaces.WaitingBoxIsStranded`); if it was not started
  before, its slot is taken from then on and no thread ever starts it (`HelperPending.PassedOverIsLost`,
  `HelperPending.LostForever`). A drain passes a Box over exactly if it comes before the parameters are put, or
  after a cancellation has taken them (`HelperPending.PassedOverExactly`, `HelperPending.PassedOverByTicket`).
- When a Box ID is started a second time, a late watchdog of the first Box can free the slot of the second, and
  one STARTING Box too many results (`HelperRaces.RestartBreaksCapacity`). Restarts alone do no harm: a Box has
  a slot whenever it is STARTING or being started, throughout a run, exactly if no kill or watchdog gives the
  slot back while it is (`HelperSlots.SlotHeldExactly`). That slot need not have been reserved after the
  watchdog's mark (`HelperRaces.MarkAfterReservation`).
- Cancelling a queued Box looks for its record twice and expects to find it the second time. The request thread
  panics exactly if, between the two looks, another thread drops the record, starts the Box or marks it as timed
  out (`HelperPanics.EveryPanic`; a run in `HelperRaces.CancellationCanPanic`).
- A scan of HTML that stops at an unclosed tag puts the text right before that tag, back to the tag before it,
  out twice: where the call does not panic, its text differs, up to white space, from what putting it out once
  gives exactly if that text is not blank (`HtmlShown.ShownTwiceExactly`; an input in `HtmlTwice.ShownTwice`).
  The scan also slices text at byte 8 and byte 7 after a `<`, and panics exactly if one of the two falls inside a
  character (`HtmlText.SanitizeHtml`, `HtmlText.SliceableExactly`, `HtmlText.CutCharacterPanics`), which ASCII
  text cannot cause (`HtmlText.AsciiNeverPanics`). A call can even return a text on which the next call panics
  (`HtmlTwice.SecondCallPanics`); exactly when two calls return the same text is `HtmlTwice.SanitizingTwice`.
- `max_prompt_chars` is compared with the length in UTF-8 bytes: the test is the one its name promises, whatever
  the limit, exactly for blank and for ASCII prompts (`Gateway.LimitCountsBytes`).
- `open` accepts a directory in which a Box is its own ancestor (`LineageRecords.SelfParentIsAccepted`), which
  `register` never writes (`LineageRuns.EveryRunIsAcyclic`). An accepted index is free of this exactly if its
  Boxes can be listed parents first (`LineageRecords.RankedExactly`).

## Model

| member | source | states |
|---|---|---|
| Admission.AdmitKeepsValid | src/admission.rs:39-57 | admission keeps active within the limit and queue and active duplicate-free and disjoint; a start means a free slot and nobody waiting; position p means the p-th place of the queue |
| Admission.ReleaseKeepsValid | src/admission.rs:62-64 | a release keeps the invariant and frees a slot exactly for a Box that held one |
| Admission.StartNextKeepsValid | src/admission.rs:67-74 | a start keeps the invariant, and fails exactly when nobody waits or no slot is free |
| Admission.CancelKeepsValid | src/admission.rs:78-83 | cancelling removes that Box from the queue, no other, and no slot |
| Admission.AdmissionController.New | src/admission.rs:27-36 | exactly the zero limit is refused; otherwise an empty, valid controller |
| Admission.AdmissionController.Admit | src/admission.rs:39-57 | new state and answer are those of the step the lemmas are about |
| Admission.AdmissionController.Release | src/admission.rs:62-64 | the slot is given back, and the answer is whether the Box held one |
| Admission.AdmissionController.StartNext | src/admission.rs:67-74 | the head of the queue moves to active exactly when a slot is free |
| Admission.AdmissionController.CancelQueued | src/admission.rs:78-83 | the search loop finds the Box exactly if it waits, and removes that place |
| AdmissionOrder.EveryRunBalances | src/admission.rs:39-83 | over every run with cancellation and ID reuse: tickets issued minus cancelled = reserved ++ waiting, in ticket order, direct starts included; enqueued minus cancelled = popped ++ waiting |
| AdmissionOrder.ReservedInAdmissionOrder | src/admission.rs:48-57 | a slot goes to a ticket only after every earlier ticket got one or was cancelled |
| AdmissionOrder.TicketStep | src/admission.rs:67-83 | a waiting ticket moves by exactly one place per pop or cancellation ahead, and gets a slot only at the head, by a successful start |
| AdmissionOrder.PositionHeld | src/admission.rs:39-83 | after any operations an uncancelled ticket is reserved exactly if its place was used up, and otherwise that many places further on |
| AdmissionOrder.PositionReached | src/admission.rs:39-83 | a Box told position p gets its slot by exactly the (p minus cancellations ahead)-th later successful start |
| HelperChecks.ResolvesExactly | src/bin/viper-helper.rs:187-241 | gateway references resolve, each to its own socket in order, exactly if all are registered and live |
| HelperChecks.NetworkExactly | src/bin/viper-helper.rs:187-241 | the network plan of a request: none or exactly its gateways with their sockets; otherwise the code of what is wrong |
| HelperChecks.StartsExactly | src/bin/viper-helper.rs:659-735 | a Box starts exactly under these conditions on request, records and host, with the unit, limits, scratch path and network asked for |
| HelperChecks.StartRefusal | src/bin/viper-helper.rs:659-714 | otherwise the error names the first check that fails, in the order of the source |
| HelperChecks.QueuesExactly | src/bin/viper-helper.rs:781-817 | a request is let through to admission exactly under these, backend requirements not among them; otherwise the error names the first check that fails |
| HelperChecks.RejectedFromQueueBecause | src/bin/viper-helper.rs:865-894 | a Box that waited is rejected exactly for a host failure, a gateway gone, or an unenforceable requirement |
| HelperModel.SpawnBox | src/bin/viper-helper.rs:659-735 | a start implies a valid new ID, the unit named after it, status STARTING and both limits in range |
| HelperModel.OneBoxPerUnit | src/bin/viper-helper.rs:265-276 | a unit, hence a handle, names at most one Box |
| HelperRuns.LaunchSettles | src/bin/viper-helper.rs:874-891 | with atomic handlers, and only so, the missing-parameters arm of the drain loop is never taken; a Box taken from the queue is STARTING or leaves no trace |
| HelperAnswers.LaunchExactly | src/bin/viper-helper.rs:874-891 | a Box taken from the queue is launched, STARTING, with a slot, its TTL thread and the limits asked for, if and only if its start meets the conditions; otherwise it is rejected with that start's code; the whole state after it |
| HelperAnswers.DrainExactly | src/bin/viper-helper.rs:865-894 | the same for every entry of a drain, over all outcomes; nothing but these Boxes changes |
| HelperAnswers.KillLaunches | src/bin/viper-helper.rs:874-891 | in every run: a Box that a kill takes from the queue is launched if and only if the host can start it, its gateways are live and its backend requirements enforceable |
| HelperAnswers.ExpiryLaunches | src/bin/viper-helper.rs:741-770 | the same for a watchdog |
| HelperAnswers.DrainRequestIsIdle | src/bin/viper-helper.rs:940-943 | in every run a request to drain finds nothing to start |
| HelperAnswers.SpawnExactly | src/bin/viper-helper.rs:819-863 | the answer to every spawn request and the whole state after it, by conditions on request, records, slots and host |
| HelperAnswers.KillExactly | src/bin/viper-helper.rs:1055-1156 | the answer to every kill and the whole state after it; what it starts is what the drain after it starts |
| HelperAnswers.CleanupExactly | src/bin/viper-helper.rs:1055-1195 | the answer to every cleanup and the whole state after it: one record less; its drain starts nothing |
| HelperAnswers.UnknownIsRefused | src/bin/viper-helper.rs:1090-1125 | a handle of no Box is refused by both |
| HelperAnswers.ExpiresExactly | src/bin/viper-helper.rs:741-770 | the whole state after a watchdog: exactly a Box that is STARTING is ended |
| HelperRuns.DrainKeeps | src/bin/viper-helper.rs:865-894 | for all outcomes a drain takes exactly a prefix of the queue in order, stops only at an empty queue or with all slots taken, touches no other Box, and terminates |
| HelperRuns.SpawnKeeps | src/bin/viper-helper.rs:819-863 | every spawn keeps the links; a refused or failed one leaves the helper as it was |
| HelperRuns.SpawnReplyIsTrue | src/bin/viper-helper.rs:832-862 | a Box told STARTING is so and holds a slot; one told QUEUED at p is queued at place p |
| HelperRuns.EndKeeps | src/bin/viper-helper.rs:752-769 | ending a Box gives its status and frees its slot; the queue is drained exactly if it held one |
| HelperRuns.KillStep | src/bin/viper-helper.rs:1126-1156 | kill keeps the invariants; failures change nothing; a cancelled Box leaves no trace; a stopped one is KILLED |
| HelperRuns.CleanUpStep | src/bin/viper-helper.rs:1157-1195 | cleanup keeps the invariants, removes the record it names, and leaks a slot exactly if that Box was STARTING |
| HelperRuns.ExpireStep | src/bin/viper-helper.rs:741-770 | a watchdog keeps the invariants, times out its Box if it is STARTING, and otherwise changes nothing but itself |
| HelperRuns.EveryRunKeeps | src/bin/viper-helper.rs:819-894 | every reachable state: queue = keys of pending = QUEUED; STARTING within active; KILLED and TIMED_OUT outside; units named after IDs; no slot free while a Box waits; slots held by no STARTING Box are those of Boxes cleaned too early |
| HelperRuns.SlotsAreStartingBoxes | BACKEND_CONTRACT.md:144-149 | in every run with atomic handlers: active = STARTING if and only if no STARTING Box was cleaned |
| HelperLeaks.OneSlotLost | src/bin/viper-helper.rs:1157-1186 | with atomic handlers, a run of two requests after which active is not STARTING |
| HelperLeaks.EarlyCleanupLeaks | src/bin/viper-helper.rs:1157-1186 | with atomic handlers, any Box spawned first and cleaned at once holds its slot while no Box is STARTING |
| HelperRuns.CapacityHolds | src/bin/viper-helper.rs:726-770 | at most limit Boxes are STARTING, in every run |
| HelperRuns.EveryRunIsWatched | src/bin/viper-helper.rs:741-770 | no Box is ever STARTING without a TTL thread still to fire |
| HelperRepeats.KillAgain | src/bin/viper-helper.rs:1055-1156 | with atomic handlers a kill after one that succeeded changes nothing, and succeeds if and only if the first stopped a Box and its unit can be stopped again; after a cancellation it is ERR_HANDLE_UNKNOWN |
| HelperRepeats.KillAfterTimeout | BACKEND_CONTRACT.md:138-141 | killing a Box that timed out makes its record KILLED and changes nothing else: its final state is not kept |
| HelperRepeats.CleanupAgain | BACKEND_CONTRACT.md:143-149 | cleaning a cleaned Box fails and changes nothing: not idempotent in its answer |
| HelperObject.ViperHelper.constructor | src/bin/viper-helper.rs:1270-1278 | an empty helper satisfies the invariants |
| HelperObject.ViperHelper.HandleSpawn | src/bin/viper-helper.rs:819-863 | the handler is the spawn step and keeps the invariants |
| HelperObject.ViperHelper.LaunchBox | src/bin/viper-helper.rs:874-891 | one turn of the drain loop is the launch step |
| HelperObject.ViperHelper.DrainLoop | src/bin/viper-helper.rs:865-894 | the loop computes the whole drain |
| HelperObject.ViperHelper.HandleDrain | src/bin/viper-helper.rs:940-943 | the handler keeps the invariants |
| HelperObject.ViperHelper.FindOnly | src/bin/viper-helper.rs:1055-1078 | scanning the records for a unit gives the same Box in any order |
| HelperObject.ViperHelper.HandleKill | src/bin/viper-helper.rs:1126-1156 | the handler is the kill step and keeps the invariants |
| HelperObject.ViperHelper.HandleCleanup | src/bin/viper-helper.rs:1157-1195 | the handler is the cleanup step and keeps the invariants |
| HelperObject.ViperHelper.FireWatchdog | src/bin/viper-helper.rs:741-770 | the firing is the expiry step and keeps the invariants |
| HelperObject.ViperHelper.HandleStatus | src/bin/viper-helper.rs:1042-1125 | unknown handles fail; QUEUED and TIMED_OUT are answered from the records, everything else is asked of systemctl |
| HelperObject.ViperHelper.RuntimeMetrics | src/bin/viper-helper.rs:896-911 | the u64 gauges are the sums over STARTING Boxes, at most 100 and 2^50 per slot, when limit < 2^14 |
| HelperObject.GaugesBounded | src/bin/viper-helper.rs:302-324 | the per-spawn bounds and the capacity invariant bound both sums |
| HelperObject.GaugesNeverOverflow | src/bin/viper-helper.rs:896-911 | in every run neither sum leaves u64 when limit < 2^14 |
| HelperThreads.EveryInterleavingKeepsOrder | src/bin/viper-helper.rs:819-894 | one lock acquisition per step, any interleaving: the controller keeps its invariant and slots are reserved in admission order |
| HelperThreads.CapacityInEveryInterleaving | src/bin/viper-helper.rs:726-770 | in every interleaving without restarts each STARTING Box holds a slot, so at most limit are STARTING |
| HelperSolo.SpawnsAlone | src/bin/viper-helper.rs:819-863 | a spawn request whose lock acquisitions follow one another leaves what the atomic handler leaves, for every request and host |
| HelperSolo.KillsAlone | src/bin/viper-helper.rs:1055-1156 | the same for a kill of any Box, waiting, running, ended or unknown, with the drain after it |
| HelperSolo.CleansAlone | src/bin/viper-helper.rs:1055-1195 | the same for a cleanup |
| HelperSolo.FiresAlone | src/bin/viper-helper.rs:741-770 | the same for a TTL watchdog |
| HelperSolo.DrainsAlone | src/bin/viper-helper.rs:865-894 | the same for a drain |
| HelperWork.EveryInterleavingAttends | src/bin/viper-helper.rs:865-894 | in every interleaving: while a Box waits and a slot is free, some thread is in the drain loop |
| HelperWork.NoSlotIsIdle | src/bin/viper-helper.rs:865-894 | in every interleaving: whenever all threads are at rest, a Box waits only if all slots are taken |
| HelperSlots.SlotHeldExactly | src/bin/viper-helper.rs:741-770 | over every run, restarts included: a Box has a slot whenever it is STARTING or being started, if and only if no kill or watchdog turn gives its slot back while it is |
| HelperSlots.StrayBreaks | src/bin/viper-helper.rs:756-765 | such a turn takes the slot at once; a STARTING Box stays STARTING without one |
| HelperSlots.CapacityWithoutStrays | src/bin/viper-helper.rs:726-770 | without such turns at most limit Boxes are STARTING in every interleaving |
| HelperRaces.RestartBreaksCapacity | src/bin/viper-helper.rs:741-770 | an interleaving with a restart in which one slot carries two STARTING Boxes |
| HelperRaces.MarkAfterReservation | src/bin/viper-helper.rs:741-770 | an interleaving in which the slot lost was reserved before the late watchdog marked anything |
| HelperDrops.DroppedSlotExactly | src/bin/viper-helper.rs:756-765 | in every interleaving without restarts so far: the slot of a Box whose record is dropped while STARTING is given back later if and only if a watchdog stood at its mark at that turn and takes two turns more |
| HelperDrops.LeaksForGood | src/bin/viper-helper.rs:1157-1195 | without such a watchdog the slot is taken, and the record missing, in every continuation |
| HelperRaces.EarlyCleanupReleased | src/bin/viper-helper.rs:756-765 | an interleaving in which the slot of a Box cleaned while STARTING comes back |
| HelperPending.PassedOverGoesOn | src/bin/viper-helper.rs:874-880 | a drain whose Box is passed over asks for the next one; any other goes on to the queued record |
| HelperPending.PassedOverExactly | src/bin/viper-helper.rs:826-879 | over every run: a drain takes the missing-parameters arm for a Box if and only if no turn has put its parameters, or one has taken them since |
| HelperPending.PassedOverByTicket | src/bin/viper-helper.rs:826-879 | for a Box not started yet: if and only if the drain comes before the request thread has put the parameters of its last admission, or after a cancellation has taken them |
| HelperPending.PassedOverIsLost | src/bin/viper-helper.rs:867-879 | a Box not started yet that is passed over holds a slot that no thread will use |
| HelperPending.LostForever | src/bin/viper-helper.rs:865-894 | it is never started and its slot never freed, whatever is asked and however threads interleave |
| HelperRaces.WaitingBoxIsStranded | src/bin/viper-helper.rs:842-857 | an interleaving that ends with a Box QUEUED, off the queue, and holding the only slot |
| HelperPanics.PanicsExactly | src/bin/viper-helper.rs:1055-1074 | over every run: the second look of a cancellation panics if and only if since the first another thread dropped the record, started the Box or marked it as timed out |
| HelperPanics.EveryPanic | src/bin/viper-helper.rs:1055-1074 | every panic of the request thread is one of these |
| HelperPanics.PanicIsFinal | src/bin/viper-helper.rs:1280-1293 | after a panic the request thread serves nothing more, in any continuation of the run |
| HelperPanics.PanicsWithoutRestarts | src/bin/viper-helper.rs:1055-1074 | when no Box ID is started twice: if and only if a drain took the Box, or, where a Box of that ID had run before, its late watchdog marked it |
| HelperRaces.CancellationCanPanic | src/bin/viper-helper.rs:1055-1074 | an interleaving in which the second look finds the queued record gone |
| Calendar.YearRecovered | src/observability.rs:55 | the correction terms recover the year of the era from its day exactly |
| Calendar.MonthRecovered | src/observability.rs:57-60 | month and day are recovered from the day of the year exactly |
| Calendar.CivilInvertsDays | src/observability.rs:52-61 | the closed form inverts days-from-civil on every valid date from year 1 |
| Calendar.CivilIsCounted | src/observability.rs:50-61 | for every day count the closed form is the date reached day by day in the Gregorian calendar, and the inverse takes it back |
| Calendar.MomentIsCounted | src/observability.rs:47-64 | for every second count the printed fields are those reached second by second, within the ranges of section 5.7 of RFC 3339 |
| Calendar.TextOrderIsTimeOrder | src/observability.rs:47-66 | before second 253402300800, the start of year 10000, a later second prints a greater text (section 5.1 of RFC 3339) |
| Calendar.YearOfCount | src/observability.rs:50-61 | second 253402300800 is the first of year 10000 |
| Calendar.TwentyCharacters | src/observability.rs:65 | the text has 20 characters exactly before second 253402300800 |
| Calendar.TextReadsBack | src/observability.rs:65 | for every second count the text, in the format of section 5.6 of RFC 3339, reads back as the fields reached by counting |
| Streaming.Produce | src/model_provider.rs:128-175 | against a receiver that hangs up at any time, each producer sends a prefix of its messages and stops reading once refused |
| StreamLines.ReadExactly | src/model_provider.rs:154-170 | what the producer does with a line: it ends the stream (done, [DONE], message_stop), breaks it (unreadable, undecodable, error event), carries text, or means nothing; for all three transports |
| StreamLines.EveryResponseEnds | src/model_provider.rs:154-174 | the last message is a done part if and only if the first line that ends or breaks the stream ends it; otherwise it is the error read, decoded or reported, or that the body ended early |
| StreamLines.CompletesExactly | src/model_provider.rs:177-199 | in every schedule a call completes only over such a body, and fails for an idle timeout or with that message |
| Streaming.OneTerminalMessage | src/model_provider.rs:154-174 | a producer's messages hold exactly one done or error message, the last |
| Streaming.MessagesCarryDeltas | src/model_provider.rs:155-170 | the messages carry exactly the deltas of the lines up to the end of the stream |
| Streaming.ReceiveLoop | src/model_provider.rs:177-199 | the receive loop makes the calls and gives the result of its arrivals up to the first that ends it |
| Streaming.ScheduleRunsTheLoop | src/model_provider.rs:177-199 | in every schedule the consumer is that loop |
| Streaming.NeverDisconnected | src/model_provider.rs:192-197 | the consumer never finds the channel empty and dropped |
| Streaming.EveryScheduleFlows | src/model_provider.rs:128-199 | in every schedule received, in flight and unsent messages are together all messages, in order |
| Streaming.DeliveredDeltas | src/model_provider.rs:82-99 | in every schedule the deltas delivered are a prefix of those denoted, all of them on success; done is the last call of a successful stream only |
| StreamEnds.EveryCallReturns | src/model_provider.rs:128-199 | for every response and schedule: once the producer has had more turns than there are lines, and the caller then as many receives as there are messages, the call has returned |
| StreamEnds.NeverStuck | src/model_provider.rs:177-199 | wherever a call stands, one turn of each more than there are lines ends it |
| ProviderStreams.DeltasReadBack | src/model_provider.rs:289-327 | whatever deltas a conforming provider streams, with blank lines, comments and other fields between, all three parsers read exactly those back |
| ProviderStreams.AnthropicEventIsSent | src/model_provider.rs:515-563 | a text delta event is sent as its text |
| ProviderStreams.ConformingProviderToClient | src/ipc.rs:82-99 | from the provider's deltas to the client's callback: a prefix, and all of them unless an error frame ends the stream |
| EventStreams.SameLines | src/model_provider.rs:289 | on LF and CRLF streams Rust's lines are the standard's |
| EventStreams.RustLineExactly | src/model_provider.rs:154 | a line is all up to the first LF, less a CR just before it, or the rest of the text |
| EventStreams.CountsAgree | src/model_provider.rs:289-306 | the scan finds as many payloads as the standard dispatches events exactly if each event has one data line and is finished |
| EventStreams.ScanAgreesWithStandard | src/model_provider.rs:289-306 | on tidy streams the scan's payloads are the data of section 9.2.6 of the WHATWG HTML Living Standard, up to trimming, if and only if no event has two data lines or is left unfinished with one |
| EventStreams.ProducersFollowEvents | src/model_provider.rs:515-522 | on such streams all messages of both SSE producers are those the standard's events make them send |
| Gateway.LimitCountsBytes | src/model_provider.rs:752-763 | the prompt test agrees with a count of characters for every limit if and only if the prompt is blank or ASCII |
| Gateway.OneCharacterRefused | src/model_provider.rs:756-761 | a prompt of one character is refused at a limit of one |
| GatewayBudget.EarlyExitExactly | src/bin/viper-model-gateway.rs:301-350 | each early refusal, in the order of the source, with its code |
| GatewayBudget.RefusedExactly | src/bin/viper-model-gateway.rs:301-409 | a request reaches its transport if and only if version, budget, configuration and prompt are in order; any other is answered by one error frame with the code of what is not |
| GatewayBudget.LeftExactly | src/bin/viper-model-gateway.rs:314-319 | over every sequence of requests the budget is what it was less the requests of the right version, never below zero |
| GatewayBudget.CallsWithinBudget | src/bin/viper-model-gateway.rs:314-319 | at most as many requests reach the transport as the gateway was built for |
| GatewayBudget.ExhaustedForGood | src/bin/viper-model-gateway.rs:314-333 | once the budget is used up every further request of the right version gets exactly that error frame |
| Gateway.EveryExchangeIsWellFramed | src/bin/viper-model-gateway.rs:292-409 | for every request, configuration, budget, provider, response and schedule: frames numbered 0 to n, the only done frame last, an error exactly on failure, deltas a prefix of those denoted and all of them on success |
| Gateway.ModelGateway.WriteChunks | src/bin/viper-model-gateway.rs:388-396 | the callback numbers the frames, goes on after a failed write, and remembers it |
| Gateway.ModelGateway.ServeStream | src/bin/viper-model-gateway.rs:292-409 | budget after the call; frames written for every pattern of failing writes; success exactly if none failed |
| Gateway.ReachedInFull | src/bin/viper-model-gateway.rs:377-409 | when no write fails, all frames of the exchange are written |
| Framing.SendStreamingRequest | src/ipc.rs:246-265 | the loop dispatches and returns what the client function says, for any bytes |
| Framing.LinesExactly | src/ipc.rs:246-252 | the lines read are the bytes, cut after each newline and at the cap |
| Framing.ClientExactly | src/ipc.rs:247-265 | on any bytes the frames dispatched are those of the lines up to the first that is done, cannot be read or is no frame, and the call ends as that line says, or as closed |
| Framing.FrameIsRead | src/ipc.rs:246-265 | a frame within the cap is read whole; at exactly the cap the newline left over is skipped |
| Framing.OversizeIsRefused | src/ipc.rs:20 | a frame over the cap is dispatched by no one and fails the call |
| Framing.FramesComeThrough | src/ipc.rs:246-265 | frames ending in their only done frame come through unchanged, whatever follows, if and only if each fits the cap |
| Framing.ClientDispatchesPrefix | src/ipc.rs:247-265 | on any byte stream only a prefix of the frames on it is dispatched |
| Framing.ClientStopsAtDone | src/ipc.rs:247-265 | on any byte stream nothing follows the first done frame, and without one the call fails |
| Framing.ProviderToClient | src/ipc.rs:82-99 | for every schedule, if the frames fit, the client dispatches a well-framed stream whose deltas are a prefix of what the provider's lines denote, and all of it without an error frame |
| LineageRecords.Validate | src/lineage.rs:230-245 | a record passes exactly if schema, ID, trace and policy are as required |
| LineageRecords.NarrowerExactly | src/lineage.rs:39-51 | a policy is narrower if and only if both are confined and every use it permits (a gateway, seconds, processor, memory) the other permits |
| LineageRecords.NoBroaderThanAncestor | src/lineage.rs:39-51 | no Box permits more than any ancestor, at any depth, in gateways, time, processor or memory |
| LineageRecords.CycleIsUniform | src/lineage.rs:142-153 | on a parent cycle in an accepted directory all TTL, CPU and memory limits are equal and gateways set-equal |
| LineageRecords.RankedIsAcyclic | src/lineage.rs:185-193 | where each Box comes after its parent, none is its own ancestor |
| LineageRecords.RankedExactly | src/lineage.rs:142-153 | in an index whose parents exist and are no narrower, no Box is its own proper ancestor if and only if the Boxes can be listed parents first |
| LineageRecords.AddedFile | src/lineage.rs:117-155 | one more good file with a new ID adds one record and keeps the directory acceptable |
| LineageRecords.SelfParentIsAccepted | src/lineage.rs:142-153 | a record that names itself as parent is accepted by open |
| LineageDisk.TemporaryIsNoRecord | src/lineage.rs:125-127 | a temporary file is never taken for a record |
| LineageDisk.TemporaryNamesDiffer | src/lineage.rs:194-198 | no two registrations of a process share a temporary name |
| LineageDisk.StopsCleanly | src/lineage.rs:194-206 | wherever the disk steps stop the record files are the old ones; only complete steps add one, whole |
| LineageStores.ReadRecords | src/lineage.rs:122-141 | the directory loop succeeds exactly on readable, good files, gives the index they denote, and reports a duplicate only for a repeated listing |
| LineageStores.CheckParents | src/lineage.rs:142-153 | the parent loop succeeds exactly if every parent exists and is no narrower, in any order |
| LineageStores.Restore | src/lineage.rs:117-155 | acceptance and index do not depend on the listing order |
| LineageStores.LineageStore.Open | src/lineage.rs:117-155 | a store opens exactly on an acceptable directory, in agreement with it |
| LineageStores.Disk.Perform | src/lineage.rs:199-206 | create fails on a taken name, a stopped write leaves a part of its bytes, rename refuses a folder; everything else is all or nothing |
| LineageStores.LineageStore.WriteRecord | src/lineage.rs:199-206 | the five disk steps in order, until one fails |
| LineageStores.LineageStore.Check | src/lineage.rs:174-193 | the checks before the disk is touched |
| LineageStores.LineageStore.RegisterRecord | src/lineage.rs:174-209 | registering is the register step and keeps memory and directory in agreement |
| LineageRuns.Refusal | src/lineage.rs:174-193 | a record passes the checks exactly if it is valid, new, and no broader than an existing parent |
| LineageRuns.RefusalExactly | src/lineage.rs:174-193 | otherwise the error names the first rule broken: BroadensParent if and only if some use exceeds the parent's |
| LineageRuns.RegisterLeaves | src/lineage.rs:194-208 | the whole directory after a registration: one file more and no temporary one, or nothing but the temporary one |
| LineageRuns.RegisterKeeps | src/lineage.rs:174-209 | after a registration that succeeds, fails or is cut off anywhere, the directory opens to the old index or the old one plus the record; an error changes no record file |
| LineageRuns.RegisterSucceeds | src/lineage.rs:194-208 | without disk trouble a record that passes is registered, exactly unless its temporary name is taken or a folder has its name |
| LineageRuns.DeathIsRecoverable | src/lineage.rs:117-155 | after a death at any point the directory opens, to the index that memory had or would have had |
| LineageRuns.EveryRunAgrees | src/lineage.rs:117-209 | at every point of every run with deaths and reopenings the directory opens to exactly the index in memory |
| LineageRuns.RecordsPersist | src/lineage.rs:172-209 | no record ever changes or disappears |
| LineageRuns.EveryRunNarrows | src/lineage.rs:39-51 | in every run no Box permits more than any ancestor, limit by limit |
| LineageRuns.EveryRunIsRanked | src/lineage.rs:185-208 | in a run from an empty store the order in which records took effect puts each Box after its parent |
| LineageRuns.EveryRunIsAcyclic | src/lineage.rs:174-209 | such a store never holds a Box that is its own ancestor |
| WhiteSpace.SqueezeJoinsWords | src/research_policy.rs:125 | splitting at white space and joining with spaces is the one-pass form |
| HtmlText.SanitizeHtml | src/research_policy.rs:98-126 | the loop computes the scan, including its three early breaks, and panics exactly if it reaches a tag whose slice at byte 8 or 7 cuts a character |
| Text.BoundaryExactly | src/research_policy.rs:104 | a byte of the text is a boundary if and only if it lies inside no character |
| Text.Utf8WidthExactly | src/research_policy.rs:104 | a character takes the fewest bytes whose bits hold its code, as section 3 of RFC 3629 lays them out |
| HtmlText.MatchesExactly | src/research_policy.rs:104-112 | the scanner sees a pattern exactly where each character is that of the pattern or its capital |
| HtmlText.SliceableExactly | src/research_policy.rs:104-111 | a tag is sliced without a panic if and only if no character of the text from it on lies across its eighth or its seventh byte; the tests before the two slices leave no such tag out |
| HtmlText.AsciiNeverPanics | src/research_policy.rs:104-111 | on ASCII text every such slice is between characters |
| HtmlText.CutCharacterPanics | src/research_policy.rs:104 | seven ASCII characters from a `<` on, then a wider one: the scan panics |
| HtmlText.CleanWhenComplete | src/research_policy.rs:98-126 | the output has no tag opener if and only if every tag reached was closed |
| HtmlText.OutputIsSingleSpaced | src/research_policy.rs:125 | the output is words separated by single spaces, for every input |
| HtmlText.OutputComesFromInput | src/research_policy.rs:98-126 | after a completed scan the non-blank output is a subsequence of the input's |
| HtmlPieces.ScanKeepsText | src/research_policy.rs:101-123 | of a page of text, tags and script or style blocks the scan keeps exactly the text |
| HtmlPieces.CompletesOnPages | src/research_policy.rs:101-123 | the scan completes if and only if the input is such a page |
| HtmlCase.CaseIsKept | src/research_policy.rs:98-126 | on inputs that differ only in the case of ASCII letters calls panic and complete alike and return texts that differ only so |
| HtmlCase.MarkupCaseIsMoot | src/research_policy.rs:104-112 | writing tags, scripts and styles of a page in another case does not change its text |
| HtmlTwice.UnclosedStays | src/research_policy.rs:104-122 | joining words with single spaces neither closes nor opens a tag |
| HtmlTwice.SanitizingTwice | src/research_policy.rs:98-126 | two calls return the same text if and only if the first does not panic and either its scan completed, or it showed only white space before the tag it stopped at and that tag can be sliced again once its white space is squeezed |
| HtmlTwice.SanitizingAsciiTwice | src/research_policy.rs:98-126 | on ASCII text neither call panics, and the texts agree if and only if the scan completed or showed only white space before the tag it stopped at |
| HtmlTwice.SecondCallPanics | src/research_policy.rs:111 | a text returned by one call on which the next panics |
| HtmlTwice.ShownTwice | src/research_policy.rs:102-124 | a text before a tag never closed that comes out twice |
| HtmlShown.ShownTwiceExactly | src/research_policy.rs:102-124 | for all inputs the text a call returns, if it does not panic, is, up to white space, what putting each text out once gives, with the text right before the tag at which the scan stops repeated; the two agree if and only if that text is blank |
| HtmlShown.OnceComesFromInput | src/research_policy.rs:98-126 | put out once, every text comes from the input, in order, completed or not; a completed scan is put out once |
| Hosts.LabelsRoundTrip | src/research_policy.rs:69-79 | labels are the name cut at its dots (section 3.1 of RFC 1034) |
| Hosts.MatchIsLabelSuffix | src/research_policy.rs:73 | the string test holds if and only if the allowed domain's labels end the host's labels |
| Hosts.NormalisedByCode | src/research_policy.rs:69 | the host compared is the host without trailing dots, its capital letters made small |
| Hosts.AllowedByLabels | src/research_policy.rs:69-79 | a host is allowed if and only if some allowed domain's labels end the labels of that |
| Hosts.CaseAndDotsAreMoot | src/research_policy.rs:69-79 | the case of a host and dots after it do not change whether it is allowed |

## Left out

- `systemd-run`, `systemctl`, scratch directories, socket probes and PATH lookups: success or failure is an
  argument; the isolation they bring is not visible in this code.
- HTTP, TLS, DNS and URL parsing: a response is given as a refusal or as the lines of its body; the host test
  takes the host as given.
- JSON and TOML text: encoders and decoders are function arguments with the round-trip laws stated in `Faithful`
  and `Agree`, and for frames that no proper prefix of an encoding parses.
- Audit trace IDs and the protocol version in frames: they carry no ordering.
- Error texts that contain numbers (idle timeout, prompt limit) are shortened; codes are kept.
- Writes that fail half-way on the gateway's socket: a failed write leaves no frame.
- At lock level, `status` and the metrics, which only read; and which locks are held at the same time.
- The end of the process with a panic of the request thread, its main thread: that thread takes no more steps, and
  the runs modelled include those in which no other thread does either.
- Box records that survive a restart of the helper: start-up reconciliation is not modelled, and every run
  starts empty.
- Integer widths other than the u64 sums of the gauges: durations, limits, sequence numbers and second counts
  are unbounded. Times before 1970 are clamped to zero by the code and so do not occur.
- EventStreams.ScanAgreesWithStandard: streams without lone CR, without byte-order mark, without white space
  before a field name and without a bare `data` line; outside these the two readers differ by design.
- Private-address and IP-literal checks of the research gateway, size limits, and search results: single-branch
  facts.
- `required_backend` is not part of policy narrowing in the code, and nothing is claimed about it.
- Creating the lineage directory, its mode, and power loss: the directory is not synced by the code, so stops
  of the process are in scope and loss of power is not. The counter of temporary names belongs to the store
  here; the code shares it between stores of one process.
- Non-streaming provider calls, the mock helper and gateway, the CLI and the probes: small state machines with
  easy claims only.
