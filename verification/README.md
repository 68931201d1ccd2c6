# Counted, verified

A Dafny model of the parts of Counted where an error would be silent: events that leave an SDK and
must be stored once, a country table that is written by one program and read by another, dates,
fingerprints and queries that several programs must agree on, and the small state machines around
them. The theorems hold for all inputs, all runs or all interleavings of the model they speak of; where a
documented promise fails, a concrete run shows it, beside a theorem that says exactly when it holds.

| part | files |
|---|---|
| shared value types, sequence facts, wire constants | `Common`, `Contract` |
| JavaScript client: bounded queue, one batch on the wire, retries, page-hide beacon | `EventQueue`, `SdkClient` |
| the client, a network that loses, delays and repeats, and a server that deduplicates | `Delivery`, `DeliveryProof`, `DeliveryTheorems` |
| what each call and each answer does, in terms of the answer as it arrives | `ClientSteps`, `Answers`; for Go and Rust `LockedAnswers` |
| Go and Rust clients between two lock acquisitions, any number of threads | `LockedClient`, `LockedRuns`, `LockedPauses` |
| country table: sweep, numbering, bytes, reader, lookup | `CountrySweep`, `CountryIndex`, `CountryTable`, `CountryRoundTrip`, `CountryBytes`, `CountryBuild` |
| calendar of the Rust SDK, its ISO text, and the runtime's | `Calendar`, `IsoText`, `IsoOrder`, `KernelInstant` |
| canonical JSON and the setup fingerprint | `JsonText`, `JsonStrings`, `KeySort`, `CanonicalJson`, `CanonicalProof`, `Fingerprint` |
| what any JSON reader makes of that text, written from RFC 8259 alone, and the order of its members | `JsonReader`, `StringReads`, `NumberReads`, `CanonicalReads`, `CanonicalOrder`, `HashedText` |
| analyses: the API's codec, the worker's reader, the stored rows | `Analysis`, `AnalysisWire`, `AnalysisReader`, `AnalysisStored`, `AnalysisRows` |
| the worker's scheduler | `Scheduler`, `SchedulerRuns` |
| the React handle | `ReactHandle` |
| the server's group commit, from request to durable write | `GroupCommit`, `GroupCommitRuns`, `GroupCommitTiming`, `GroupCommitMemory` |
| the ingest quota and its cache | `IngestQuota`, `QuotaReadings`, `QuotaRuns`, `QuotaRaces` |
| the workspace closure | `Workspace` |
| the conformance line protocol | `LineProtocol` |

Objects whose methods update fields are classes; each method is proved equal to a function of the
old state, and the theorems are about runs of those functions. What the main theorems promise is
written in the values that come in and go out (a status, a deadline, an index), not through the functions
the code decides by. A run is a sequence of actions; an
action the state does not allow changes nothing, or the run is required to be legal.

## Where the code and its documentation differ

The model follows the code; the theorems named say exactly when the documented promise holds, or give
a run in which it does not.

- Dropped events are "reported, never silent" (`packages/sdk-js/src/client.ts:142-145`). Drops made
  when a failed batch returns to a full queue are counted and not reported
  (`SilentDropsAreTheOverflows`, `ADropNobodyHearsOf`). A negative capacity makes the counter count
  too much (`CounterIsExactIff`).
- Shutdown "flushes what is queued" (clause SDK-080 of `contract/sdk-behaviour.md`). One flush is at
  most one batch, and none while another flush is under way or paused (`ShutdownEmptiesTheQueueIff`).
- "So ordering survives" (`packages/go/client.go:258`). In Go and Rust two flushes at once can put
  batches back in the wrong order (`TwoFlushersLoseOrder`), so it survives in every run only where
  the buffer cannot hold two events or nothing is sent (`OrderAlwaysSurvivesIff`), and a single requeue
  keeps it exactly under a condition on the batch and the buffer (`RequeueKeepsOrderIff`).
- A batch of Go or Rust that fails after another was refused for its credential stays in the buffer of
  a disabled client for good (`DisabledHoldsNothingIff`).
- The pause a server asks for is kept in the JavaScript client, beacons aside. In Go and Rust a batch can be sent again
  before the pause it was answered with is set (`ResentBeforeThePause`), and a pause once set is
  overwritten by the backoff of another thread (`ThePauseIsOverwritten`). It is kept exactly when it
  is set and no thread is left that can shorten it (`NothingIsSentBeforeIff`, `APauseOnceSetHoldsIff`,
  `BeforeThePauseIsSetIff`, and for Rust's earlier reading of the clock `NothingIsSentByAnyClockIff`); with
  one flusher it always is (`OneFlusherKeepsThePause`).
- "A job that throws does not stop the schedule" (`apps/worker/src/scheduler.ts:17-19`). A job whose
  `run` is not `async` and throws instead of returning a promise reaches the `finally` before it is
  registered, which the comment at lines 174-176 rules out, and is never started again (`StoppedIff`);
  all jobs in `apps/worker/src/worker.ts` are `async`, so none does.
- The reader of the country table keeps IPv4 boundaries in 32 bits. A range that ends at 2^32 gives
  a boundary that wraps to 0 (`TableSurvivesIff`, `TopOfSpaceWraps`).
- ISO texts order as instants do up to the year 9999 and no further (`TextOrderIsTimeOrderIff`); up
  to there the Rust SDK and the JavaScript runtime write the same text (`SdkTextIsRuntimeTextIff`).
- "Two machines listing the same agents in a different directory order describe the same setup, and
  must fingerprint the same" (`packages/agent-telemetry/src/fingerprint.ts:96-97`). They do exactly
  when no id is given to two different prompts (`PromptOrderDoesNotMatterIff`); otherwise the order in
  which an id's prompts are listed is part of the fingerprint (`FingerprintExactly`).
- "`undefined` is not representable, and that is enforced rather than tolerated" (lines 71-74 there).
  The code leaves out a member that is `undefined` (line 86), so an object with one has the text of
  the object without it (`SameText`); only elsewhere is it refused (`PrintableIff`).
- The worker reads what the API stored "unchanged" only for relative windows, single breakdowns and
  series without a split (`ApiRowReads`): it has no reader for the API's absolute windows, for a list
  of breakdown fields, or for the split and limit of a series.
- "Total memory is maxBuffered + maxInFlight * maxEvents and never more"
  (`packages/ingestion/app/src/group-commit.ts:160-162`). A group that waits for a slot grows on and
  goes with more than `maxEvents`, however small the requests are, so this holds only where there is
  no slot or no more may wait than makes a group go (`DocumentedBoundHoldsIff`). The bound that always
  holds, `GroupCommitRuns.MemoryIsBounded`, is reached by requests of one event (`TheBoundIsReached`).
- A drain "resolves only when no request is left holding an unresolved promise" (lines 278-280). A
  request that is asking the quota holds one and is not waited for (`DrainedAnswersAllIff`,
  `DrainLeavesOne`).
- A check of the ingest quota counts what is stored and not what is outstanding, so requests that are
  checked before an earlier one is committed pass the allowance, however small they are
  (`TheAllowanceAlwaysHoldsIff`): by no more than was outstanding, plus what came in while the engine
  could not be read (`TheExcessIsWhatWasOutstanding`). The allowance holds exactly as long as what is
  stored and outstanding fits it (`SafeIff`, `AdmittingIsSafeIff`).
- A cached count is "safe to update" (`apps/api/src/ingest/quota.ts:162-163`) only if as much had been
  written when its read began as had been recorded when it landed (`AtRestTheCacheIsExactIff`);
  otherwise a write is missed or counted twice (`AWriteIsMissed`, `AWriteCountsTwice`).
- A reply line that arrives when no command is waiting is dropped, and one that is no reply is taken for
  one: every later command gets the reply to another (`AnEarlyReplyShiftsTheAnswers`,
  `AStrayLineShiftsTheAnswers`, `EachHasItsOwnIff`).

## Model

| member | source | states |
|---|---|---|
| EventQueues.TrimDropsTheOldest | packages/sdk-js/src/queue.ts:66-73 | Trimming drops from the oldest end only, keeps at most the capacity, and drops nothing it need not. |
| EventQueues.CounterIsExactIff | packages/sdk-js/src/queue.ts:66-73 | The drop counter equals the number of dropped events, for every buffer, exactly when the capacity is not negative. |
| EventQueues.EventQueue.constructor | packages/sdk-js/src/queue.ts:29-33 | A new queue is empty and has dropped nothing. |
| EventQueues.EventQueue.Push | packages/sdk-js/src/queue.ts:44-47 | The new event goes to the back and the buffer keeps its newest `capacity` events. |
| EventQueues.EventQueue.Take | packages/sdk-js/src/queue.ts:50-52 | The front of the buffer moves out, in order, with `splice`'s clamping; the rest stays. |
| EventQueues.EventQueue.Requeue | packages/sdk-js/src/queue.ts:61-64 | A failed batch goes back in front of what arrived since, within the bound. |
| SdkClient.Counted.constructor | packages/sdk-js/src/client.ts:81-98 | The initial client state; a batch is never configured above 250. |
| SdkClient.Counted.Identify | packages/sdk-js/src/client.ts:109-112 | The person becomes the trimmed id, or nobody for a blank one, and nothing else changes. |
| SdkClient.Counted.Reset | packages/sdk-js/src/client.ts:121-124 | The person is forgotten and nothing else the model holds changes. |
| SdkClient.Counted.Track | packages/sdk-js/src/client.ts:126-148 | The event as stamped joins the queue, a drop is reported, and a full batch starts a flush; a closed or disabled client ignores it. |
| SdkClient.Counted.Flush | packages/sdk-js/src/client.ts:151-190 | Overlapping calls join; otherwise the head of the queue goes on the wire unless disabled, paused or empty. |
| SdkClient.Counted.Handle | packages/sdk-js/src/client.ts:192-233 | The state after each kind of answer: settled, refused, disabled with the queue discarded, or paused with the batch back. |
| SdkClient.Counted.Settle | packages/sdk-js/src/client.ts:153-155 | The cleared promise lets the next flush start. |
| SdkClient.Counted.OnHidden | packages/sdk-js/src/client.ts:282-292 | A batch leaves as a beacon, or returns when the browser refuses it. |
| SdkClient.Counted.Shutdown | packages/sdk-js/src/client.ts:165-173 | The client is closed and one flush is started. |
| ClientSteps.TrimStrips | packages/sdk-js/src/client.ts:110 | Trimming takes the white space of ECMA-262 off both ends, all of it and nothing else. |
| ClientSteps.PersonIsAttributed | packages/sdk-js/src/client.ts:109-124 | Over any run the person is the trimmed id last identified, or nobody after a blank one or a reset. |
| ClientSteps.TrackedAsGiven | packages/sdk-js/src/client.ts:126-141 | After any run an event is tracked with what it was given and that person; a closed or disabled client tracks nothing. |
| ClientSteps.FlushSends | packages/sdk-js/src/client.ts:175-190 | A flush sends the oldest events, as many as a batch holds, iff none is under way and the client is live, unpaused and has some; otherwise it leaves the queue alone. |
| ClientSteps.OverlappingFlushesJoin | packages/sdk-js/src/client.ts:150-157 | Until a flush has settled, another changes nothing. |
| ClientSteps.AFlushEnds | packages/sdk-js/src/client.ts:151-157 | Whatever the answer, once settled the next flush may start. |
| ClientSteps.TrackSendsIff | packages/sdk-js/src/client.ts:146-147 | A track starts a request iff it fills a batch and a flush may start. |
| ClientSteps.ABeaconTakesTheOldest | packages/sdk-js/src/client.ts:282-292 | In any run a page that goes away hands over the oldest batch, and if the browser refuses nothing has happened. |
| ClientSteps.ClosedTracksNothing | packages/sdk-js/src/client.ts:126-130 | After a shutdown nothing more is tracked, whatever is called. |
| DeliveryTheorems.EveryEventInOnePlace | packages/sdk-js/src/client.ts:126-233 | In every reachable state a tracked event is in exactly one of queue, wire, settled, refused, fatal, beaconed, dropped, discarded, and an untracked one in none. |
| DeliveryTheorems.MemoryIsBounded | packages/sdk-js/src/client.ts:175-189 | The events held never exceed the capacity plus one batch, for every configuration. |
| DeliveryTheorems.TrackOrderIsKept | packages/sdk-js/src/queue.ts:54-64 | Wire followed by queue is in track order, and so are first transmissions, over every run. |
| DeliveryTheorems.ExactlyOnce | packages/sdk-js/src/client.ts:134-137 | Whatever is lost, delayed, reordered or repeated, the server holds an event at most once and unchanged, every event of a settled batch is stored or was rejected by a receipt, and one that is not stored was rejected each time the server processed it. |
| DeliveryTheorems.NothingVanishes | packages/sdk-js/src/client.ts:192-233 | A tracked event the server never stored is still held, was rejected, or has a named fate. |
| DeliveryTheorems.DisabledForever | packages/sdk-js/src/client.ts:199-212 | After a fatal answer nothing is held, tracked or sent again, whatever follows. |
| Answers.ItIsSentAgain | packages/sdk-js/src/client.ts:221-233 | Nothing heard, `retryable: true`, or silence with 408, 425, 429, 500, 502, 503 or 504: the batch is back in front of the queue, whose newest events are kept, nothing is refused, and the client pauses until the time the header names or by backing off. |
| Answers.ItIsSettled | packages/sdk-js/src/client.ts:193-198 | A 2xx settles the batch and forgets the failures; queue and pause stay, and rejected events are told. |
| Answers.ItIsFinal | packages/sdk-js/src/client.ts:199-219 | Any other answer refuses the batch alone, or, on 401 and 403, ends it with the queue and the client; either is told. |
| Answers.ClassifiedAs | packages/sdk-js/src/transport.ts:45-113 | Accepted, retried or refused, and the wait, from the status, the envelope and the Retry-After number or date. |
| Answers.DisabledIff | packages/sdk-js/src/client.ts:199-212 | Over any run the client is disabled iff a 401 or 403, not called passing by the server, has answered one of its batches. |
| Answers.RefusedIsNeverSentAgain | packages/sdk-js/src/client.ts:199-219 | Whatever follows, a refused event is in no later request of the client. |
| DeliveryTheorems.AttemptsAreFailures | packages/sdk-js/src/client.ts:193-231 | Over any run the attempt counter is the number of answers that may be retried and name no time since the last success, told from status, envelope and header. |
| DeliveryTheorems.NothingIsSentBeforeThePauseEnds | packages/sdk-js/src/client.ts:177-178 | After an answer that may be retried no request but a beacon goes out before the time the header named, or the jittered end of a wait that doubles with each failure up to a minute, whatever happens meanwhile. |
| DeliveryTheorems.SilentDropsAreTheOverflows | packages/sdk-js/src/client.ts:142-145 | Over any run the drop counter exceeds the reported drops by exactly what returning batches overflowed; they agree iff no returning batch overflowed. |
| DeliveryTheorems.ADropNobodyHearsOf | packages/sdk-js/src/client.ts:232 | A concrete run that drops an event without a report. |
| DeliveryTheorems.ShutdownEmptiesTheQueueIff | packages/sdk-js/src/client.ts:159-173 | Shutdown leaves nothing queued iff the queue is empty or fits one batch and a flush may start now. |
| DeliveryProof.RunAccounted | packages/sdk-js/src/client.ts:126-233 | The conservation invariant of client, fates and drop counter over every run. |
| DeliveryProof.RunTransmitted | packages/sdk-js/src/client.ts:180-187 | Every request carries tracked events only, the batch on the wire is the last request awaited, and a disabled client holds nothing. |
| DeliveryProof.RunOrdered | packages/sdk-js/src/queue.ts:54-64 | The ordering invariant over every run. |
| DeliveryProof.RunServed | packages/sdk-js/src/client.ts:134-137 | The server invariant: what is stored has distinct keys and what was receipted is stored or rejected. |
| LockedClient.Client.constructor | packages/rust/src/client.rs:103-132 | The initial state of a Go or Rust client. |
| LockedClient.Client.Track | packages/go/client.go:103-123 | One critical section: the event at the back, the bound kept, the drop noted; nothing when closed or disabled. |
| LockedClient.Client.TakeBatch | packages/rust/src/client.rs:175-188 | The critical section of a flush takes the head of the buffer, or nothing when disabled or paused. |
| LockedClient.Client.Requeue | packages/go/client.go:258-264 | A batch goes back in front, in order, within the bound. |
| LockedClient.Client.Backoff | packages/rust/src/client.rs:260-272 | One more attempt, and a pause of the jittered exponential ceiling, cut to a whole millisecond. |
| LockedClient.Client.PauseFor | packages/go/client.go:236-241 | The pause a server asked for, as its own critical section. |
| LockedClient.Client.Accept | packages/go/client.go:206-216 | A success resets the attempts and notes rejected events. |
| LockedClient.Client.Refuse | packages/go/client.go:218-233 | A permanent refusal: noted, or fatal with the buffer discarded and the client disabled. |
| LockedClient.Client.Close | packages/go/client.go:173-184 | Closing stops tracking and changes nothing else. |
| LockedClient.Client.TakeDiagnostics | packages/rust/src/client.rs:199-201 | The notes are handed over and forgotten. |
| LockedClient.BackoffSchedulesAgree | packages/rust/src/client.rs:264-272 | Rust's capped exponent cannot overflow and gives the same ceiling as the uncapped formula at every attempt; it doubles and reaches 60 s at the eighth. |
| LockedAnswers.ItIsSentAgain | packages/go/client.go:194-204 | Nothing heard, `retryable: true`, or silence with a passing status: the batch is in front of the buffer, the newest kept and the loss noted, and the thread is about to pause. |
| LockedAnswers.ItIsSettled | packages/go/client.go:206-216 | A 2xx settles the batch, forgets the attempts and notes rejected events. |
| LockedAnswers.ItIsFinal | packages/go/client.go:218-233 | Any other answer refuses the batch, or, on 401 and 403, empties the buffer and disables the client; either is noted. |
| LockedAnswers.ThePauseIs | packages/go/client.go:235-256 | The pause asked for, or a jittered part of a wait that doubles up to a minute, in whole milliseconds. |
| LockedAnswers.FlushTakes | packages/go/client.go:148-171 | A flush takes the oldest events, as many as a batch holds, unless disabled or paused. |
| LockedAnswers.TrackKeepsTheNewest | packages/go/client.go:103-123 | A new event goes to the back, the newest are kept and the loss is noted; a closed or disabled client ignores it. |
| LockedAnswers.AttemptsAreFailures | packages/rust/src/client.rs:260-272 | Under every interleaving the attempts are the backoffs since the last success. |
| LockedAnswers.DisabledIff | packages/go/client.go:218-228 | Under every interleaving the client is disabled iff a 401 or 403, not called passing by the server, has answered one of its batches. |
| LockedAnswers.ClosedTracksNothing | packages/go/client.go:103-108 | Once closed, nothing more is tracked on any thread. |
| LockedRuns.EveryInterleaving | packages/go/client.go:148-274 | Under every interleaving each event is in exactly one place, the buffer respects its bound, and the drops noted, taken or not, are all the drops. |
| LockedRuns.OneFlusherKeepsOrder | packages/go/client.go:258-264 | With one flusher the wire followed by the buffer is in track order. |
| LockedRuns.TwoFlushersLoseOrder | packages/go/client.go:258-264 | For every bound of two or more and every batch size, a run of two flushers that puts a later event first. |
| LockedRuns.RequeueKeepsOrderIff | packages/rust/src/client.rs:274-281 | The buffer a requeue leaves is in order iff the batch is older than everything waiting, or either is empty, or there is no room for any of the batch. |
| LockedRuns.OrderAlwaysSurvivesIff | packages/go/client.go:258-264 | The buffer is in track order in every run iff it cannot hold two events or nothing is ever sent. |
| LockedRuns.DisabledSendsNothing | packages/go/client.go:148-153 | A disabled client tracks and sends nothing more, whatever follows. |
| LockedRuns.DisabledHoldsNothingIff | packages/go/client.go:218-235 | A disabled client stays empty in every continuation iff no other batch was on the wire or the bound is zero. |
| LockedRuns.ABatchStranded | packages/go/client.go:218-235 | For every positive bound and batch size, a run that leaves an event in a disabled client. |
| LockedPauses.NothingIsSentBeforeIff | packages/go/client.go:148-163 | From any state no continuation, by a clock that does not go back, sends anything before a given time iff the client is paused until then and every thread is done or about to set a pause that lasts as long, or the client has nothing to send for good. |
| LockedPauses.NothingIsSentByAnyClockIff | packages/rust/src/client.rs:249-272 | The same when the clock may be read before the lock is taken, as Rust does: iff the client is paused until then and every thread is done, or it has nothing to send for good. |
| LockedPauses.APauseOnceSetHoldsIff | packages/go/client.go:235-255 | Once a thread has set the pause it was told, nothing goes out before its end iff no other thread is on the wire, backing off, or about to set a shorter one. |
| LockedPauses.BeforeThePauseIsSetIff | packages/go/client.go:235-241 | Between the answer that names a pause and the setting of it nothing goes out iff an earlier pause lasts long enough and no other thread can shorten it. |
| LockedPauses.OneFlusherKeepsThePause | packages/go/client.go:235-241 | With one flusher a pause once set holds in every continuation. |
| LockedPauses.ResentBeforeThePause | packages/go/client.go:235-241 | A run in which a rate-limited batch is sent again at the instant of the answer. |
| LockedPauses.ThePauseIsOverwritten | packages/go/client.go:235-255 | A run in which a pause of a minute is overwritten by a backoff and a request goes out 200 ms in. |
| CountrySweep.BestIsLeast | scripts/build-country-table.ts:150 | The reference: of the ranges with `start <= key < start + span` the best starts earliest, then is shortest, then was given first; none when there is none. |
| CountrySweep.SortSorts | scripts/build-country-table.ts:150 | Sorting keeps the ranges and makes the best range the first that contains the address. |
| CountrySweep.CoveredAlready | scripts/build-country-table.ts:155-164 | Below the cursor every address of a later range is already in an earlier one. |
| CountrySweep.Sweep | scripts/build-country-table.ts:155-169 | The boundaries partition the space and give each address the country of the first sorted range that contains it; the overlaps counted are the ranges cut short or swallowed. |
| CountrySweep.Merge | scripts/build-country-table.ts:171-177 | Merging keeps the map, and the result starts at 0, increases strictly and never repeats a country. |
| CountrySweep.ToBoundaries | scripts/build-country-table.ts:147-179 | For any overlapping ranges of positive span every address is looked up to the country of its best range, in canonical boundaries. |
| CountrySweep.ChangeIsABoundary | scripts/build-country-table.ts:171-177 | Where the map changes every boundary list must have a boundary. |
| CountrySweep.CanonicalIsShortest | scripts/build-country-table.ts:171-178 | The merged list is the shortest of all boundary lists of its map. |
| CountryIndex.CountCodes | scripts/build-country-table.ts:231-235 | The frequency map counts each code over all boundaries, keys in order of first appearance. |
| CountryIndex.NumberCodes | scripts/build-country-table.ts:231-237 | Every occurring code once, by falling frequency, equally frequent ones in the order of the alphabet by index, and numbered from 1. |
| CountryIndex.LebLengthIs | scripts/build-country-table.ts:189-197 | The length of a varint is one byte per seven bits. |
| CountryIndex.LebIs | scripts/build-country-table.ts:189-197 | The bytes of a varint denote it, seven bits each and low ones first; the eighth bit is set on all but the last, and no byte is too many. |
| CountryIndex.Rearrangement | scripts/build-country-table.ts:230-237 | Giving short numbers to frequent codes beats any other assignment, code by code. |
| CountryIndex.RankingIsOptimal | scripts/build-country-table.ts:230-237 | No injective numbering from 1 makes the index column shorter. |
| CountryTable.Writer.WriteU8 | scripts/build-country-table.ts:184 | One byte, the value modulo 256, is appended. |
| CountryTable.Writer.WriteU16 | scripts/build-country-table.ts:185 | Two bytes, low first. |
| CountryTable.Writer.WriteU32 | scripts/build-country-table.ts:186 | Four bytes, low first. |
| CountryTable.Writer.WriteAscii | scripts/build-country-table.ts:187 | The low byte of each character. |
| CountryTable.Writer.WriteVarint | scripts/build-country-table.ts:189-197 | The LEB128 bytes (section 7.6 of DWARF version 5) of the value are appended. |
| CountryTable.Reader.Varint | packages/ingestion/adapter-geoip/src/table.ts:83-92 | A varint is read to its last byte, or the table is truncated. |
| CountryTable.FillRows | packages/ingestion/adapter-geoip/src/table.ts:95-107 | The loop fills both arrays with the running sums and the indices, in the arrays' widths, or reports truncation. |
| CountryTable.DecodeAxis | packages/ingestion/adapter-geoip/src/table.ts:123-131 | One axis with its count. |
| CountryTable.DecodeCodes | packages/ingestion/adapter-geoip/src/table.ts:119-121 | The country codes with their count. |
| CountryTable.DecodeTable | packages/ingestion/adapter-geoip/src/table.ts:109-134 | The whole reader with its error cases, equal to the format's definition. |
| CountryRoundTrip.LebReads | packages/ingestion/adapter-geoip/src/table.ts:83-92 | Reading a varint undoes writing it and leaves the rest. |
| CountryRoundTrip.DecodeReads | packages/ingestion/adapter-geoip/src/table.ts:109-134 | What is read from a written table, with the wrap-around of its fixed widths. |
| CountryRoundTrip.RoundTripIff | packages/ingestion/adapter-geoip/src/table.ts:109-134 | A table comes back unchanged iff every stored number fits its width. |
| CountryRoundTrip.EncodingIsUnique | scripts/build-country-table.ts:239-254 | Different tables have different bytes. |
| CountryBytes.HeaderBytes | scripts/build-country-table.ts:239-243 | The first eleven bytes of a table: `CTRY`, 1, the build time and the number of countries, low bytes first. |
| CountryBytes.BodyBytes | scripts/build-country-table.ts:244-254 | Then two letters for each country, in order, and the two axes. |
| CountryBytes.WhatIsNoTable | packages/ingestion/adapter-geoip/src/table.ts:109-121 | Exactly which bytes are no table, which are another version, and that anything else refused ended too soon. |
| CountryRoundTrip.FloorIndex | packages/ingestion/adapter-geoip/src/table.ts:143-157 | The binary search finds the last boundary at or below the key, or -1. |
| CountryRoundTrip.RowsLookUp | packages/ingestion/adapter-geoip/src/table.ts:169-179 | Looking up in the numbered rows is looking up in the boundaries. |
| CountryBuild.WriteDeltas | scripts/build-country-table.ts:248-253 | The loop appends the deltas and indices of the boundaries. |
| CountryBuild.Emit | scripts/build-country-table.ts:239-254 | The bytes written are the encoding of the table. |
| CountryBuild.Build | scripts/build-country-table.ts:227-257 | From ranges to bytes and back: every address is looked up to the country of the first delegated range that contains it, and to none when none does. |
| CountryBuild.TableLooksUp | packages/ingestion/adapter-geoip/src/table.ts:169-179 | The lookup of the built table is the lookup of the ranges, for both families. |
| CountryBuild.CommonestFirstIsShortest | scripts/build-country-table.ts:230-237 | No injective numbering from 1 makes the two emitted axes shorter. |
| CountryBuild.BoundariesReachTheEnds | scripts/build-country-table.ts:166-169 | All boundaries lie below a limit iff all ranges end below it. |
| CountryBuild.TableSurvivesIff | packages/ingestion/adapter-geoip/src/table.ts:123-126 | A built table comes back unchanged iff every IPv4 range ends below 2^32. |
| CountryBuild.TopOfSpaceWraps | packages/ingestion/adapter-geoip/src/table.ts:123-126 | A concrete table that looks nothing up after the round trip. |
| Calendar.CivilIsTheCalendar | packages/rust/src/client.rs:342-354 | For every day, before and after the epoch, the algorithm gives the date reached by walking the Gregorian calendar day by day. |
| Calendar.CivilStep | packages/rust/src/client.rs:342-354 | One day on is the next date by the leap rule of Appendix C of RFC 3339, and the date is valid. |
| IsoText.IsoReadsBack | packages/rust/src/client.rs:328-340 | The text of every instant since the epoch reads back to its millisecond. |
| IsoOrder.IsoOrder | packages/rust/src/client.rs:328-340 | Before the year 10000 a later instant has a later text. |
| IsoOrder.TextOrderIsTimeOrderIff | packages/rust/src/client.rs:328-340 | Text order is time order on all instants below a bound iff the bound is at most the year 10000. |
| KernelInstant.IsoStringReadsBack | packages/kernel/src/instant.ts:50-64 | Every whole millisecond in the runtime's range reads back from its text, years below 0 and above 9999 included. |
| KernelInstant.YearTextIs | packages/kernel/src/instant.ts:60-64 | Four digits for the years 0 to 9999, otherwise a sign and six. |
| KernelInstant.InstantComesBack | packages/kernel/src/instant.ts:50-64 | Exactly the instants up to a hundred million days from 1970 come back, without their fraction of a millisecond, cut off towards 1970. |
| KernelInstant.InstantSurvivesIff | packages/kernel/src/instant.ts:22-64 | An instant survives its text iff it is a whole number of milliseconds in range. |
| KernelInstant.AnalysisSurvivesIff | apps/api/src/analysis/wire.ts:226-428 | The API reads back the analysis it wrote iff its window is relative or both its instants are whole milliseconds in range. |
| KernelInstant.SdkTextIsRuntimeTextIff | packages/rust/src/client.rs:328-340 | The Rust SDK and the runtime write the same text for an instant iff it is before the year 10000. |
| JsonText.NumTextInjective | packages/agent-telemetry/src/fingerprint.ts:78-81 | Two finite numbers with the same JSON text are the same number, the zeros aside. |
| JsonStrings.QuoteEnds | packages/agent-telemetry/src/fingerprint.ts:82 | A quoted string can be told from whatever follows it. |
| KeySort.StableSortIff | packages/agent-telemetry/src/fingerprint.ts:100-108 | Two sequences sort alike iff, key by key, they list the same elements in the same order. |
| KeySort.OrderIsImmaterialIff | packages/agent-telemetry/src/fingerprint.ts:100-108 | All rearrangements of a sequence sort alike iff its keys determine its elements. |
| KeySort.SortIff | packages/agent-telemetry/src/fingerprint.ts:85-87 | Sorting by a key that determines its element forgets the order and nothing else. |
| CanonicalProof.PrintableIff | packages/agent-telemetry/src/fingerprint.ts:76-91 | A value is refused iff it holds a non-finite number or something that is not JSON where it may not be dropped. |
| CanonicalProof.Unambiguous | packages/agent-telemetry/src/fingerprint.ts:76-91 | Two canonical texts that agree up to what follows come from the same value. |
| CanonicalProof.SameText | packages/agent-telemetry/src/fingerprint.ts:85-88 | The same value up to key order and undefined members has one text. |
| CanonicalProof.CanonicalIff | packages/agent-telemetry/src/fingerprint.ts:67-91 | Canonical texts are equal iff the values are the same JSON (sections 3.2.2 and 3.2.3 of RFC 8785). |
| CanonicalOrder.MembersAscend | packages/agent-telemetry/src/fingerprint.ts:85-88 | Of two members written for an object the earlier name is a proper prefix of the later, or has the smaller unit at the first index where they differ. |
| CanonicalOrder.ProjectionAscends | packages/agent-telemetry/src/fingerprint.ts:100-108 | In what is hashed the prompts ascend so by id and the allowed and denied tools by name. |
| CanonicalReads.ReadsBack | packages/agent-telemetry/src/fingerprint.ts:76-91 | A reader of RFC 8259, which knows nothing of the writer, reads the canonical text, whatever follows it, as the same value with its members in ascending order. |
| StringReads.QuoteReads | packages/agent-telemetry/src/fingerprint.ts:82 | The reader gets every string back from its quoted text, lone surrogates included. |
| StringReads.EscapesAre | packages/agent-telemetry/src/fingerprint.ts:82 | Which units are escaped, how, and that all others stand for themselves (section 25.5.2 of ECMA-262). |
| NumberReads.NumberReads | packages/agent-telemetry/src/fingerprint.ts:78-81 | The reader gets every finite number back from its text, both zeros as one. |
| NumberReads.LargeAndSmallNumbersAre | packages/agent-telemetry/src/fingerprint.ts:78-81 | The exponent form, from 1e21 on and below 1e-6, digit by digit. |
| NumberReads.OtherNumbersAre | packages/agent-telemetry/src/fingerprint.ts:78-81 | Every other number without an exponent, with zeros only where its digits do not reach the point. |
| Fingerprint.SameJsonIff | packages/agent-telemetry/src/fingerprint.ts:39-55 | Two projections are the same JSON iff they agree field by field. |
| Fingerprint.FingerprintExactly | packages/agent-telemetry/src/fingerprint.ts:93-121 | For any two setups with finite numbers the hashed texts are equal iff the setups agree field by field, on tools up to order, and list for every id the same prompts in the same order. |
| HashedText.TheObjectIs | packages/agent-telemetry/src/fingerprint.ts:39-55 | The object that is hashed, name by name, with null for what a setup does not have. |
| HashedText.TheTextReadsBack | packages/agent-telemetry/src/fingerprint.ts:93-121 | A JSON reader gets the normalised setup back from the hashed text, all names ascending. |
| Fingerprint.FingerprintIff | packages/agent-telemetry/src/fingerprint.ts:93-121 | Where no id is given to two different prompts, the hashed texts are equal iff the setups agree up to the order of prompts and of allowed and denied tools. |
| Fingerprint.PromptOrderDoesNotMatterIff | packages/agent-telemetry/src/fingerprint.ts:93-108 | Every rearrangement of the prompts has the same hashed text iff no id is given to two different prompts. |
| Fingerprint.RepeatedIdsKeepTheirOrder | packages/agent-telemetry/src/fingerprint.ts:100-108 | Two prompts with one id, listed the other way round, are another hashed text, whatever follows them. |
| AnalysisWire.ConvertPredicate | apps/api/src/analysis/wire.ts:84-148 | The loops of the conversion give the recursive conversion, first error included. |
| AnalysisWire.ConvertSteps | apps/api/src/analysis/wire.ts:199-205 | The same for funnel steps. |
| AnalysisWire.ConvertFields | apps/api/src/analysis/wire.ts:268-274 | The same for breakdown fields. |
| AnalysisWire.PredicateFailsIff | apps/api/src/analysis/wire.ts:84-148 | A predicate is refused iff some field in it names none of the eight dimensions, and for the first such field in reading order. |
| AnalysisWire.AnalysisFailsIff | apps/api/src/analysis/wire.ts:226-286 | An analysis is refused iff it names an unknown dimension anywhere or an instant that does not parse; for the first of them, fields before instants in a funnel and after them elsewhere. |
| AnalysisWire.PredicateReturns | apps/api/src/analysis/wire.ts:297-344 | A predicate written to the wire reads back unchanged. |
| AnalysisWire.AnalysisReturnsIff | apps/api/src/analysis/wire.ts:380-428 | An analysis written to the wire reads back unchanged iff the instants of its window do. |
| AnalysisReader.ParseScalars | apps/worker/src/analysis-codec.ts:126-135 | The loop over values is the recursive reader. |
| AnalysisReader.ParsePredicate | apps/worker/src/analysis-codec.ts:94-156 | The worker's predicate reader with its loops and depth limit is the recursive one. |
| AnalysisReader.ParseStep | apps/worker/src/analysis-codec.ts:193-219 | The same for a funnel step. |
| AnalysisReader.ParseSteps | apps/worker/src/analysis-codec.ts:221-230 | The same for the steps of a funnel. |
| AnalysisStored.PredicateReads | apps/worker/src/analysis-codec.ts:94-156 | A stored predicate is read back iff it nests at most 32 levels and names every property. |
| AnalysisStored.AnalysisStoresAlike | apps/api/src/analysis/wire.ts:380-428 | Apart from windows the API's row and the worker's own are the same JSON. |
| AnalysisStored.OwnRowReads | apps/worker/src/analysis-codec.ts:262-302 | What the worker makes of its own stored form, for every analysis: the analysis itself iff it is legible and not a split series. |
| AnalysisStored.ApiRowReads | apps/worker/src/analysis-codec.ts:262-302 | What the worker makes of the row the API stores, for every analysis: the analysis itself iff moreover its window is relative. |
| AnalysisRows.PredicateIff | apps/worker/src/analysis-codec.ts:74-156 | For any JSON at all: it is read as this predicate iff it has all of its members as they are stored, names every property and nests at most 32 levels; other members are passed over. |
| AnalysisRows.StepIff | apps/worker/src/analysis-codec.ts:193-219 | The same for a funnel step, whose label and condition are there iff it has them. |
| AnalysisRows.AnalysisIff | apps/worker/src/analysis-codec.ts:158-302 | The same for a whole analysis of any shape, both spellings of the conversion window and a null condition included: everything else is refused. |
| Scheduler.JobScheduler.Tick | apps/worker/src/scheduler.ts:116-134 | The loop starts what is due and idle, skips what is due and running, and leaves the rest. |
| Scheduler.JobScheduler.Launch | apps/worker/src/scheduler.ts:107-111 | A run is registered after it was invoked, also when it has already ended. |
| Scheduler.JobScheduler.Finish | apps/worker/src/scheduler.ts:99-104 | The `finally` of a run. |
| Scheduler.JobScheduler.RunNow | apps/worker/src/scheduler.ts:166-178 | An idle known job is launched whenever it last ran; a running one is only waited for. |
| SchedulerRuns.NeverOverlaps | apps/worker/src/scheduler.ts:116-134 | In every interleaving at most one run of a job is active. |
| SchedulerRuns.TickStartsKeepTheirDistance | apps/worker/src/scheduler.ts:80-84 | A tick-started run begins at least `every` after the job's previous run finished. |
| SchedulerRuns.IdleJobStartsInTime | apps/worker/src/scheduler.ts:48-58 | With ticks at most a cadence apart an idle job is started no later than `every` plus the cadence after it finished. |
| SchedulerRuns.TickBeginsWhatIsDue | apps/worker/src/scheduler.ts:116-134 | In any run of jobs of different names a tick begins exactly those whose time has come and that are not executing, in their order, and reports these and the ones it skipped. |
| SchedulerRuns.RunNowBeginsWhatIsIdle | apps/worker/src/scheduler.ts:166-178 | An immediate run begins a listed idle job and otherwise changes nothing. |
| SchedulerRuns.StoppedIff | apps/worker/src/scheduler.ts:86-111 | A job is never begun again, in any continuation, iff its `run` once threw instead of returning a promise. |
| ReactHandle.TrimmedTwice | packages/react/src/use-counted.ts:91-95 | A remembered person, identified again, is the same person. |
| ReactHandle.NoCallIsLostOrRepeated | packages/react/src/use-counted.ts:123-173 | Over any mounts, rebuilds and unmounts, the calls applied, client after client, followed by those waiting, are the calls made. |
| ReactHandle.RebuildingIsInvisible | packages/react/src/use-counted.ts:97-190 | Each track reaches one client, with the person a single never-rebuilt client would have given it. |
| ReactHandle.ThePersonSurvives | packages/react/src/use-counted.ts:100-105 | The live client's person is the remembered one and the single client's. |
| ReactHandle.UseCounted.Apply | packages/react/src/use-counted.ts:123-135 | A call reaches the live client, which is never a closed one, and the person is noted. |
| ReactHandle.UseCounted.Send | packages/react/src/use-counted.ts:169-173 | A call is applied, or waits its turn. |
| ReactHandle.UseCounted.Effect | packages/react/src/use-counted.ts:139-156 | A new client hears of the person, then of the waiting calls in order. |
| ReactHandle.UseCounted.Cleanup | packages/react/src/use-counted.ts:158-163 | The old client is shut down and no call reaches it any more. |
| GroupCommits.CollapseDuplicates | packages/ingestion/domain/src/dedup.ts:63-85 | The loop keeps the first of every key not seen, and everything without a key, in order, and counts the rest. |
| GroupCommits.GroupCommit.Offer | packages/ingestion/app/src/group-commit.ts:200-224 | A request up to the quota check: answered at once when empty, draining or out of room, or left asking. |
| GroupCommits.GroupCommit.Resume | packages/ingestion/app/src/group-commit.ts:224-263 | From the verdict on: turned away, or joined to its project's group and the groups looked at. |
| GroupCommits.GroupCommit.Join | packages/ingestion/app/src/group-commit.ts:240-261 | The unseen events join the group as one slice, with a waiter that owns it. |
| GroupCommits.GroupCommit.Pump | packages/ingestion/app/src/group-commit.ts:317-346 | The loop sends every group that is ready while there is a slot, oldest first. |
| GroupCommits.GroupCommit.Finish | packages/ingestion/app/src/group-commit.ts:348-415 | Every waiter of a commit is answered from its slice of the receipt; the slot is still taken. |
| GroupCommits.GroupCommit.Release | packages/ingestion/app/src/group-commit.ts:340-344 | The slot of an answered commit is given up and the groups are looked at. |
| GroupCommits.GroupCommit.Drain | packages/ingestion/app/src/group-commit.ts:282-288 | From now on every group is ready. |
| GroupCommits.GroupCommit.NextDeadlineAt | packages/ingestion/app/src/group-commit.ts:182-189 | The earliest deadline of a waiting group, and none when none waits. |
| GroupCommitRuns.ReceiptIsTheGain | packages/ingestion/app/src/group-commit.ts:360-371 | The events a receipt calls newly written are as many as the store gained. |
| GroupCommitRuns.AcceptedAddsUp | packages/ingestion/app/src/group-commit.ts:388-401 | What the requests of one commit are told was accepted is, together, exactly what was newly stored. |
| GroupCommitRuns.EveryRequestInOnePlace | packages/ingestion/app/src/group-commit.ts:200-415 | In every run a request is asking, waiting, being written or answered, and only one of these; it is answered at most once. |
| GroupCommitRuns.CommittedMeansDurable | packages/ingestion/app/src/group-commit.ts:12-18 | Whatever the sink loses, or writes and does not say, and whatever keys other projects use, a request told "committed" has all its events in the store of its own project and every one accounted for. |
| GroupCommitRuns.NothingReadyIsLeftWaiting | packages/ingestion/app/src/policy.ts:87-112 | After a look at the groups one at a ceiling, at `openedAt + linger` or in a drain waits only for a slot. |
| GroupCommitTiming.PumpSends | packages/ingestion/app/src/group-commit.ts:317-346 | A look at the groups sends those that are due by opening time, size, riders or drain, oldest first, one for each free slot, and leaves the others as they are. |
| GroupCommitTiming.NothingGoesEarly | packages/ingestion/app/src/policy.ts:87-98 | While no group has reached a ceiling and every `openedAt + linger` lies ahead, a look at the groups changes nothing. |
| GroupCommitTiming.TheFirstDueGoes | packages/ingestion/app/src/policy.ts:87-111 | The first group at its deadline or at either ceiling is in the commits if there is a slot. |
| GroupCommitTiming.OnlyWhatIsDueGoes | packages/ingestion/app/src/policy.ts:100-111 | Nothing else goes, and what is due stays only if all slots are taken. |
| GroupCommitTiming.JoiningKeepsTheAge | packages/ingestion/app/src/group-commit.ts:240-261 | A request joins the group of its project, which keeps its opening time, or opens one now; no other group is touched. |
| GroupCommitTiming.RefusedIff | packages/ingestion/app/src/group-commit.ts:200-263 | Over any run a request is told a refusal iff its reason happened: over plan, backpressure by rate limit or lack of room, shutting down, or a write that failed. |
| GroupCommitTiming.AcceptedIsTheGain | packages/ingestion/app/src/group-commit.ts:348-401 | In any run each rider of a written commit is told exactly what its own slice of events added to the store. |
| GroupCommitRuns.NoKeyIsStoredTwice | packages/ingestion/domain/src/dedup.ts:16-23 | In any run the store of a project never holds two events of one key. |
| GroupCommitRuns.MemoryIsBounded | packages/ingestion/app/src/group-commit.ts:156-166 | What waits is counted exactly and stays within its ceiling, writes within theirs, and everything held within the ceiling times one more than the slots. |
| GroupCommitMemory.DocumentedBoundHoldsIff | packages/ingestion/app/src/group-commit.ts:160-162 | The documented memory bound holds in all runs of requests of at most `cap` events, by a clock that does not go back, iff there is no slot, or no more may wait than makes a group go, or `cap` is zero. |
| GroupCommitMemory.TheBoundIsReached | packages/ingestion/app/src/policy.ts:60-112 | For any policy whose ceiling makes a group go, a run of one-event requests that fills every slot and the waiting room up to the ceiling. |
| GroupCommitRuns.DrainedAnswersAllIff | packages/ingestion/app/src/group-commit.ts:278-288 | When a drain has nothing left to wait for, everyone is answered iff nobody is asking the quota. |
| GroupCommitRuns.DrainLeavesOne | packages/ingestion/app/src/group-commit.ts:278-288 | A concrete drain that ends before a request is answered. |
| GroupCommitRuns.DrainingEnds | packages/ingestion/app/src/group-commit.ts:282-288 | While draining a waiting group has all slots taken before it, and each answer of the sink and each slot given up leaves one thing less to do. |
| IngestQuota.RefusedAtTheBand | packages/tenancy/domain/src/quota.ts:60-73 | A workspace is refused iff the batch would bring it to 1.3 times its allowance, and to the allowance. |
| IngestQuota.DerivedQuota.UsedBy | apps/api/src/ingest/quota.ts:73-114 | A fresh reading is reused; otherwise the answer is cached, and a failed one leaves the cache alone. |
| IngestQuota.DerivedQuota.Check | apps/api/src/ingest/quota.ts:117-159 | The verdict and the cache for every kind of project and plan, failures admitted. |
| IngestQuota.DerivedQuota.Record | apps/api/src/ingest/quota.ts:161-168 | The loop advances both keys, each only if it has a reading. |
| QuotaReadings.CheckIs | apps/api/src/ingest/quota.ts:117-159 | The class takes the steps the following runs are made of. |
| QuotaReadings.RunKnows | apps/api/src/ingest/quota.ts:73-168 | After any checks and records the count kept for a key is the last answer that landed plus everything recorded about it since, dated by that answer. |
| QuotaReadings.CheckGoesBy | apps/api/src/ingest/quota.ts:117-159 | After any checks and records a verdict goes by that count if the answer landed less than `refresh` ago, otherwise by the check's own answer, for unclaimed projects, claimed workspaces and plans of every kind. |
| QuotaReadings.AFreshAnswerIsNotAskedAgain | apps/api/src/ingest/quota.ts:73-77 | Within `refresh` of the last landed answer whatever the engine would say changes neither verdict nor cache. |
| QuotaReadings.OtherKeysStay | apps/api/src/ingest/quota.ts:89-113 | A check about one key changes nothing that is known about another. |
| QuotaRuns.BoundsCoverWhatIsAdmitted | apps/api/src/ingest/quota.ts:99-106 | The bounds of the query miss no event that admission ever let in. |
| QuotaRuns.TheCacheIsTheStore | apps/api/src/ingest/quota.ts:93-168 | With atomic reads and a record after each commit, every cached unclaimed count is the number of events in the store, over every run. |
| QuotaRuns.TheExcessIsWhatWasOutstanding | apps/api/src/ingest/quota.ts:127-134 | A project stores at most its allowance, plus the most that was outstanding when one more check passed, plus what came in while the engine failed. |
| QuotaRuns.TheAllowanceHolds | apps/api/src/ingest/quota.ts:127-134 | One request at a time, with an engine that answers, the allowance is never passed. |
| QuotaRuns.SafeIff | apps/api/src/ingest/quota.ts:127-134 | After any run the store stays within the allowance in every continuation without another check of the project iff what is stored and what is outstanding fit it. |
| QuotaRuns.AdmittingIsSafeIff | apps/api/src/ingest/quota.ts:127-134 | Admitting a request that the check let in keeps it so iff its events fit beside what is stored and what is outstanding. |
| QuotaRuns.TheAllowanceAlwaysHoldsIff | apps/api/src/ingest/quota.ts:127-134 | With an engine that answers and requests of at most `cap` events, the allowance holds in every run iff it, or `cap`, is zero or the project does not exist. |
| QuotaRuns.OneTooMany | apps/api/src/ingest/quota.ts:127-134 | For every positive allowance a run of one-event requests that stores one event more. |
| QuotaRaces.CachedIffLanded | apps/api/src/ingest/quota.ts:93-114 | A count is cached iff an answer has landed, and every answer was asked for. |
| QuotaRaces.TheDriftIs | apps/api/src/ingest/quota.ts:93-168 | How far a cached count is off, in every interleaving of writes, records and reads, from the moves alone. |
| QuotaRaces.AtRestTheCacheIsExactIff | apps/api/src/ingest/quota.ts:93-168 | With all writes recorded a cached count is exact iff as much had been written when its read began as had been recorded when it landed. |
| QuotaRaces.AWriteIsMissed | apps/api/src/ingest/quota.ts:93-168 | A run at whose end a stored and recorded event is not counted. |
| QuotaRaces.AWriteIsSeen | apps/api/src/ingest/quota.ts:93-168 | A run with a record inside the read at whose end the count is exact. |
| QuotaRaces.AWriteCountsTwice | apps/api/src/ingest/quota.ts:93-168 | A run at whose end one event is counted twice. |
| Workspace.NamesResolve | scripts/prune-workspace.ts:69-74 | A name resolves iff a workspace declares it, and to the last directory that does. |
| Workspace.ClosureIsLeast | scripts/prune-workspace.ts:76-93 | Any closed set of directories with the target has everything reachable. |
| Workspace.Pruner.constructor | scripts/prune-workspace.ts:69-74 | The loop builds the map from names to directories, the last declaration winning. |
| Workspace.Pruner.Visit | scripts/prune-workspace.ts:83-92 | The in-place search ends on every graph, cycles included; what it marks is reachable through entries of dependencies or devDependencies, and has no unmarked dependency of either kind. |
| Workspace.Pruner.Close | scripts/prune-workspace.ts:82-93 | The closure is exactly the directories reachable from the target through entries of dependencies or devDependencies. |
| Workspace.Pruner.Filtered | scripts/prune-workspace.ts:104-111 | The entries kept are those that name no workspace outside the closure. |
| Workspace.Pruner.Prune | scripts/prune-workspace.ts:93-118 | No root dependency left, of either kind, names a workspace the target does not reach, and every other one is left, in its order. |
| LineProtocol.LinesAreUnique | contract/conformance/src/process-harness.ts:43-55 | There is one way to cut a text into complete lines and a rest, and the loop's is it. |
| LineProtocol.LineProtocol.Send | contract/conformance/src/process-harness.ts:57-63 | A command joins the end of the line. |
| LineProtocol.LineProtocol.Consume | contract/conformance/src/process-harness.ts:43-55 | The loop delivers the non-empty trimmed complete lines, in order, to those waiting, and keeps the unfinished rest. |
| LineProtocol.TheRepliesAre | contract/conformance/src/process-harness.ts:43-55 | However a stream is written as lines and a rest, its replies are the lines that are not blank, without the white space around them, and the rest is kept. |
| LineProtocol.AnAnswerHolds | contract/conformance/src/process-harness.ts:57-65 | A command is answered once: neither its timer nor a later line changes what it was told. |
| LineProtocol.TheTimerEndsTheWait | contract/conformance/src/process-harness.ts:57-62 | The timer of a waiting command fails it and leaves its place in the line. |
| LineProtocol.CuttingDoesNotMatter | contract/conformance/src/process-harness.ts:43-55 | However a stream is cut into chunks, the buffer and the lines seen are those of the whole. |
| LineProtocol.TheKthReplyAnswersTheKthCommandIff | contract/conformance/src/process-harness.ts:57-65 | Every reply answers a command iff none comes before its command; then the k-th answers the k-th, after timeouts too. |
| LineProtocol.FirstInFirstOut | contract/conformance/src/process-harness.ts:43-65 | The n-th line that found anyone waiting went to the n-th command. |
| LineProtocol.NoAnswerIsAnothers | contract/conformance/src/process-harness.ts:57-65 | When the driver says no more than the replies and none before its command, no command is answered with the reply to another. |
| LineProtocol.EachHasItsOwnIff | contract/conformance/src/process-harness.ts:57-65 | While no reply is early and no timer fires, each answered command has its own reply iff the lines are the replies and nothing else. |
| LineProtocol.AStrayLineShiftsTheAnswers | contract/conformance/src/process-harness.ts:43-55 | A stray line before the first reply gives the second command the reply to the first. |
| LineProtocol.AnEarlyReplyShiftsTheAnswers | contract/conformance/src/process-harness.ts:43-55 | A reply before its command is lost, and the first command gets the reply to the second. |

## Left out

- Real HTTP, timers, DOM events, `sendBeacon`, files and databases are steps of the environment; an answer, a tick or a chunk arrives as an action.
- Random values and UUIDs are inputs. Idempotency keys are taken to be fresh; SHA-256 is not computed, so the fingerprint theorems are about the text that is hashed.
- `onDiagnostic` callbacks that call back into the client, console warnings, the quota and detail fields of diagnostics, and `systemProperties`.
- Visits: `packages/sdk-js/src/visit.ts` and the visit rollover of Go and Rust. A visit id comes with each track.
- `Identify` and `Reset` of Go and Rust, which touch the person and the visit and nothing of the buffer.
- Non-integer and NaN capacities or batch sizes; integers beyond 2^53 that a double would round. Times and JSON numbers are reals or integers.
- How a double is printed: a JSON number is its shortest decimal, given as digits and exponent.
- LockedClient.Client.PauseFor: the text of Retry-After headers is not parsed in Go and Rust; the number of milliseconds is an input.
- The Python client, a third copy of the Go and Rust machine.
- `readRecords`, `parseIpv4` and `parseIpv6` of the table builder: the model starts from parsed ranges. `localeCompare` on two capital letters is taken as alphabetical order.
- Clamping and coercion of an address to a lookup key (`packages/ingestion/adapter-geoip/src/address.ts` is not part of this model).
- Sparse arrays, getters and symbols in values given to `canonicalize`.
- KernelInstant.IsoStringReadsBack: `Date.parse` accepts many more forms than `toISOString` writes; only those are read here, and an out-of-range `toISOString`, which throws, is an unreadable text.
- AnalysisWire.AnalysisFailsIff: the schema validation before the conversion and `Analysis.validate` after it are not modelled; the wording of the errors is reduced to the offending text.
- Monitor sweeps, the engine's queries and the tiles around an analysis.
- ReactHandle.RebuildingIsInvisible: a replayed call is stamped when it is replayed, so its time and visit are the replay's; `identityOf`, which decides when React runs the effect again, is not modelled.
- IngestQuota.DerivedQuota.Check: the reads of project, plan and creation date are answers given with the call; a missing creation date is a failed reading.
- QuotaRuns.TheCacheIsTheStore: for unclaimed projects. A claimed workspace is read month to date, and a recorded event may lie outside the month; a commit of several requests is one step of their total size. A project's times do not go back: a check stamped before an event that is already stored is not modelled.
- GroupCommits.GroupCommit.Finish: the call of `record` between the write and the answers, which cannot change them, and the wording of refusals; an inconsistent receipt or a sink that throws is a failed write.
- Admission beyond its clock check, and the analytics engine.
- Workspace.Pruner.Prune: the glob expansion of `workspaces` and the sorting of the directories written back.
- LineProtocol.LineProtocol.Consume: the JSON inside a line, and a child process that dies.
- Authorization tables, configuration, OpenAPI and MCP projections, billing, redaction and platform detection: finite tables and plumbing.
