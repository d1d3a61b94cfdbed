# multi-dap in Dafny

multi-dap is a Debug Adapter Protocol server for the Green Hills MULTI debugger. This project
models the parts of it whose correctness depends on more than one function or more than one step,
and proves what those parts promise. It consists of Dafny modules, one or a few per component;
`dafny verify dfyconfig.toml` verifies all of them.

Code that updates fields is a class whose methods are proved against functions on values; the
invariants and theorems are about those functions and about whole runs of them. What lies outside
(the clock, SHA-256, JSON decoding, the debugger backend, MULTI itself, the native trace library)
is a function-valued environment that can answer anything at every numbered call, so a theorem
holds whatever it answers. Byte strings are strings whose characters stand for bytes.

**Native trace normalizer and Chrome export** (`TraceDecoder`, `TraceLayout`, `TraceCapture`,
`TraceReference`, `TraceNormalizer`, `TraceStructure`, `TraceBudget`, `TraceSoundness`, `TracePairing`,
`TraceAccount`, `TraceExact`, `TraceReport`, `TraceMeaning`, `ChromeTime`, `ChromeExport`, `ChromeMeaning`,
`ChromeExporter`, `ChromeTheorem`). `TraceReference` says declaratively what each packet's clock epoch
and context are, from its neighbours alone; the two-pass, segment-walking normalizer is proved to compute
exactly that on every capture. Every report then satisfies: spans pair an entry and an exit of one task,
address and clock epoch, are nested or disjoint, straddle no discontinuity; function events are conserved;
discontinuities stay within a budget. What a report contains is also told a second time, without stacks or
steps: the entry an exit closes is found by counting the calls of its task since the last discontinuity,
and the spans, the discontinuities with their reasons, the statistics and the refusals of every capture
are proved to be exactly those that this counting calls for. The exporter, which checks the report again,
can refuse a normalizer report only for its two limits of 4096; what it emits is stated without its
numbering: every span and timed packet once, on the process of its clock and the thread of its task.

**Host performance recorder and DAP framing** (`FrameHeader`, `DapCodec`, `PerfRecorder`, `PerfAccount`,
`PerfCapture`, `PerfStream`, `PerfRecording`, `PerfInterleaving`, `PerfObserver`). Framing round trip; the
passive observer as a byte-at-a-time automaton that bulk copying and any cutting into writes refine; lanes,
clock and per-command summary of the correlator. `PerfAccount` tells from the messages alone which request
each response settles, and every counter and entry is proved to follow from that; `PerfInterleaving`
shows that two conversations, in any interleaving and any writes, are recorded message by message, and
`PerfRecording` exactly when a trace calls itself complete and what it contains then.

**Bridge executor** (`Executor`, `ExecutorRuns`). Interleaved steps of any number of submitters, Replace
and Close calls and the worker, with every choice of a select open: what every interleaving keeps, why a
call can be refused, that no outcome is lost, and that closing ends.

**Client session** (`DapLifecycle`, `DapSession`, `DapSessionRuns`, `DapSessionTold`, `DapFrontend`) and
**TimeMachine helper session** (`HelperSession`, `HelperRuns`, `HelperExact`, `HelperWorker`). State
machines with theorems over every run, and for every request exactly what it is answered with and what it
changes, from the state and the outcomes of the outside calls.

**Breakpoint placement** (`BreakpointTable`, `BreakpointPlacer`, `BreakpointClient`,
`BreakpointRuns`). MULTI as a table per core whose commands take effect and report success
independently of each other; exact undo of one placement and of whole runs under many tokens.

**Profile import** (`ProfileCsv`, `ProfileCsvText`, `ProfileCsvExact`, `ProfileDecimal`,
`ProfileRanking`, `ProfileImport`). The CSV automaton and exactly which inputs it reads, exact decimal
comparison, and rankings of the validated rows.

Three expectations do not hold of the code as it stands. Each has an example and the exact condition:

- The decoder reports a clean end of stream not only between frames but also right after a complete
  Content-Length line (`DapCodec.CleanEndInsideHeaders`, `DapCodec.CleanEndExactly`).
- The decoder accepts header lines that the passive observer refuses: exactly those with a carriage
  return inside the line, which the decoder trims (`PerfStream.ReturnTolerated`,
  `PerfStream.ObserverFollowsDecoder`). The other direction holds (`PerfStream.DecoderFollowsObserver`).
- A placement can leave an owned breakpoint behind without returning anything to clear it by: exactly
  when the `b` command takes effect and reports failure (`BreakpointPlacer.LeakExample`,
  `BreakpointPlacer.NothingReturned`).

Where a comment and the code disagree the model follows the code: the decoder's comment
(internal/dap/codec.go:63-64) says that additional well-formed headers are accepted, but any header
other than Content-Length is refused (internal/dap/codec.go:94-134).

## Model

| member | source | states |
|---|---|---|
| TraceDecoder.DecodeInfo | internal/timemachine/decoder.go:79-116 | exactly the wrong sizes are refused; the timebase is the word at its offset, and its values 1, 2 and 3 mean exactly instructions, cycles and picoseconds |
| TraceDecoder.DecodePacket | internal/timemachine/decoder.go:198-302 | exactly which packets are refused, which kinds carry a tag, an event, a context or a function, that tags fit 64 bits and contexts are canonical decimals |
| TraceLayout.KindTellsType | internal/timemachine/decoder.go:198-302 | for every packet decoded: its kind tells the type byte back, its address is the second eight-byte word, and an unknown packet has a type that the release does not use |
| TraceLayout.PacketDecodes | internal/timemachine/decoder.go:198-302 | for every type, address and payload: laying the fields out as little-endian words and decoding gives them back from the right offsets; refused exactly if an extended opcode or raw trace claims more bytes than it has |
| TraceCapture.ValidateCapture | internal/timemachine/capture.go:88-177 | accepts exactly the captures the normalizer may assume: known release, decodable info and packets, increasing generation ids, ranges that fit, all totals within limits |
| TraceCapture.ValidateGenerations | internal/timemachine/capture.go:142-176 | succeeds exactly if every generation is valid and follows its predecessor |
| TraceReference.PreviousBoundary | internal/timemachine/normalize.go:193-238 | the nearest PID marker or packet barrier before a packet, with nothing between |
| TraceReference.NextBoundary | internal/timemachine/normalize.go:193-238 | the nearest PID marker or packet barrier after a packet, with nothing between |
| TraceNormalizer.Normalizer.Barrier | internal/timemachine/normalize.go:369-376 | the object's new state is the reference barrier: one more discontinuity, no open frame, all of them counted as invalidated |
| TraceNormalizer.Normalizer.AdvanceClock | internal/timemachine/normalize.go:378-383 | the object's new state is the reference one: a barrier exactly when the epoch changes |
| TraceNormalizer.Normalizer.FunctionEvent | internal/timemachine/normalize.go:323-367 | pairing on per-context stacks equals the reference step, including limits and mismatches; which exits complete a span, mismatch or stay unmatched is told by TraceReport.ExitWithPartner and ExitWithoutPartner |
| TraceNormalizer.Normalizer.Segment | internal/timemachine/normalize.go:240-315 | walking a segment equals running the reference step over each of its packets |
| TraceNormalizer.Normalizer.Generation | internal/timemachine/normalize.go:193-238 | walking all segments of a generation equals the reference run over it |
| TraceNormalizer.Stamp | internal/timemachine/normalize.go:127-159 | the first pass gives each packet the epoch counted from tag regressions before it and its exact timestamp |
| TraceNormalizer.SegmentAttribution | internal/timemachine/normalize.go:240-315 | what a segment attributes from its two ends is the declarative rule at each packet inside |
| TraceNormalizer.Normalize | internal/timemachine/normalize.go:100-176 | for every capture: invalid ones are refused, on valid ones the result, report or limit error, is that of the reference, whose contents TraceExact.ReportIsExact states |
| TraceStructure.ObservationsAreChronicle | internal/timemachine/normalize.go:127-159 | consecutive indices, epochs growing by at most one, values that never fall within an epoch (signed tags and the shift by 8 included) |
| TraceStructure.StepKeepsStructure | internal/timemachine/normalize.go:193-383 | every packet keeps frames ordered and after every barrier, spans nested and unstraddled |
| TraceStructure.RunKeepsStructure | internal/timemachine/normalize.go:193-383 | the same over every run of a generation |
| TraceBudget.RunBalanced | internal/timemachine/normalize.go:323-376 | at every step open frames equal the sum of the stacks and respect both limits, events are conserved, and barriers plus open frames are paid for by packets |
| TraceSoundness.ReportSpans | internal/timemachine/normalize.go:323-383 | every span of every report joins an entry and exit of one generation, epoch, context and address with end >= start; spans of a task are disjoint or nested with the inner deeper; none straddles a discontinuity |
| TraceSoundness.ReportConservesEvents | internal/timemachine/normalize.go:165-174 | entries = spans + invalidated + unfinished; exits = spans + unmatched + mismatched |
| TraceSoundness.ReportBudget | internal/timemachine/normalize.go:193-383 | at most packets + regressions + generations discontinuities, so never over the export limit; epochs = generations + regressions; the function clock regression branch is never taken |
| TraceSoundness.ReportAttribution | internal/timemachine/normalize.go:193-315 | every packet of every generation has its place in the report with its number; a marker or barrier has its own context; an unmarked packet has one exactly if its nearest markers on both sides agree or only one of them knows, two known ones that differ are a conflict, and its evidence says from which side it comes |
| TracePairing.StepAgrees | internal/timemachine/normalize.go:193-383 | if counting describes the spans, discontinuities and open calls so far, it does so after every further packet |
| TracePairing.RunAgrees | internal/timemachine/normalize.go:193-383 | over every generation the recorded spans and discontinuities are those that counting calls and barriers gives |
| TraceAccount.RunLimits | internal/timemachine/normalize.go:240-333 | a generation is refused exactly at the first packet that needs one task or one open call too many, with that limit's error |
| TraceAccount.RunNotes | internal/timemachine/normalize.go:240-376 | each counter of the pairing is the number of packets it is meant to count, told from the observations |
| TraceExact.ReportIsExact | internal/timemachine/normalize.go:100-383 | a valid capture is refused if and only if a packet exceeds a limit, with the first one exceeded; otherwise spans, discontinuities and statistics of the report are exactly those told by counting over its observations, in order |
| TraceReport.PartnerUnique | internal/timemachine/normalize.go:338-343 | an exit closes at most one entry |
| TraceReport.BreaksExactly | internal/timemachine/normalize.go:193-376 | a packet is a discontinuity of the report for a reason if and only if that reason is its own, told from the observations and the earlier discontinuities |
| TraceReport.SpansExactly | internal/timemachine/normalize.go:338-366 | the spans that end at a packet are those of the pair it completes and no other |
| TraceReport.ExitWithPartner | internal/timemachine/normalize.go:338-366 | an exit whose partner, found by counting, has its address has exactly their span in the report, at the depth of the calls around it; with another address there is a mismatch and no span |
| TraceReport.ExitWithoutPartner | internal/timemachine/normalize.go:334-337 | an exit without a partner completes no span and is no mismatch |
| TraceReport.MismatchExactly | internal/timemachine/normalize.go:338-343 | mismatches of the report lie exactly at the exits whose partner has another address |
| TraceMeaning.TagExactly | internal/timemachine/decoder.go:215-228 | a tag is the 64-bit word, signed on the release with signed tags and unsigned on the other |
| TraceMeaning.EventsExactly | internal/timemachine/decoder.go:336-361 | an event is known exactly if its release documents the code, and all but trigger and marker are discontinuities |
| TraceMeaning.KnownExactly | internal/timemachine/capture.go:217-226 | a decoded context is unknown exactly if its task or its address space is one of the reserved numbers |
| TraceMeaning.RegressesExactly | internal/timemachine/normalize.go:127-159 | a clock epoch ends exactly where a tag is less than the nearest tag before it |
| TraceMeaning.ReportClock | internal/timemachine/normalize.go:127-190 | every packet of a report: its raw tag, its exact time in the unit of the trace (cycle tags without their eight fractional bits), and the epoch, one higher exactly where a tag steps back |
| ChromeTime.MicrosecondsExact | internal/timemachine/chrome.go:239-248 | the printed number denotes exactly picoseconds / 10^6, without trailing zeros |
| ChromeExporter.Exporter.Track | internal/timemachine/chrome.go:150-177 | a track is reused or added with the next number and its name event; refused exactly at the limit |
| ChromeExporter.FindOrigins | internal/timemachine/chrome.go:87-111 | the least timestamp of every clock domain; an error only if an observation is not exportable or there are too many domains |
| ChromeExporter.ChromeTrace | internal/timemachine/chrome.go:78-226 | succeeds exactly for exportable reports within both limits; the trace then has one event per span and per timed packet, in order, with its fields, on the named process of its clock domain and the named thread of its task, no other names, and the least time of each domain |
| ChromeTheorem.NormalizedReportIsReady | internal/timemachine/chrome.go:78-248 | every report of the normalizer in picoseconds passes every check of the exporter except possibly the two limits |
| ChromeTheorem.NormalizeAndExport | internal/timemachine/chrome.go:78-226 | the report is the one Normalize promises; exporting it fails only on its domain or track limit, and exactly if one is exceeded; otherwise the trace shows the report |
| ChromeMeaning.OriginExactly | internal/timemachine/chrome.go:87-111 | the origin of a clock domain is its least time, and there is none without one |
| ChromeMeaning.TraceShows | internal/timemachine/chrome.go:78-226 | whatever numbers the exporter gives out: every span and timed packet has one event on the process named for its domain and the thread named for its context, with its name, raw values, evidence and exact times, and names belong to exactly the domains and contexts that occur |
| ChromeTheorem.PacketTimeExact | internal/timemachine/chrome.go:178-203 | the time of a packet event is non-negative and exactly its distance from the domain's origin |
| ChromeTheorem.SpanTimeExact | internal/timemachine/chrome.go:204-224 | the same for start and duration of a span |
| ChromeTheorem.TrackKeysDistinct | internal/timemachine/chrome.go:150-177 | different contexts never share a track |
| FrameHeader.FieldRoundTrip | internal/dap/codec.go:29-45 | the header field written for a body announces its length |
| DapCodec.Encoder.Encode | internal/dap/codec.go:29-45 | with a writer that takes all, writes exactly the frame, or nothing if it is too long; with any writer a success means exactly the frame, a failure a prefix of it |
| DapCodec.Encoder.WriteAll | internal/dap/codec.go:47-61 | over any sequence of short, empty and failing writes: what is written is a prefix of the data, and all of it on success |
| DapCodec.Decoder.ReadHeaderLine | internal/dap/codec.go:136-161 | reads one line as specified, with every error case |
| DapCodec.Decoder.ReadContentLength | internal/dap/codec.go:94-134 | reads the header block as specified, with every error case |
| DapCodec.Decoder.Decode | internal/dap/codec.go:79-92 | reads one frame and leaves exactly the bytes behind it |
| DapCodec.FramesRoundTrip | internal/dap/codec.go:29-161 | decoding the concatenation of any encoded frames gives exactly the bodies in order and then a clean end |
| DapCodec.DecodesExactly | internal/dap/codec.go:79-161 | a frame decodes if and only if it is one valid length line, a blank line and the body |
| DapCodec.CleanEndExactly | internal/dap/codec.go:94-161 | a clean end is reported if and only if the input is empty or stops right after a length line |
| DapCodec.CleanEndInsideHeaders | internal/dap/codec.go:94-161 | the second case occurs, for every length |
| PerfRecorder.Pigeonhole | internal/perf/recorder.go:267-275 | requests that hold all of the first k lanes are at least k |
| PerfRecorder.LaneExists | internal/perf/recorder.go:267-275 | the search for a free lane stays below 256 |
| PerfRecorder.RequestKeepsOwned | internal/perf/recorder.go:251-280 | a lane is busy exactly if one pending request holds it, through requests and duplicates |
| PerfRecorder.ResponseKeepsOwned | internal/perf/recorder.go:282-315 | the same through responses |
| PerfRecorder.ResponseKeepsTime | internal/perf/recorder.go:282-315 | on a lane a span ends before the next one starts, even if the clock runs backwards |
| PerfRecorder.RequestKeepsBalance | internal/perf/recorder.go:251-280 | every observed request is counted once: completed, abandoned, refused or pending |
| PerfRecorder.ResponseKeepsBalance | internal/perf/recorder.go:282-315 | the same, and completed requests and events are entries or counted as dropped |
| PerfCapture.SettledStays | internal/perf/recorder.go:251-315 | a request number the recorder is past and does not await is never awaited or told again; a response to it is unmatched |
| PerfCapture.HandleKeeps | internal/perf/recorder.go:230-323 | every message keeps lanes, times, marks, balance and fidelity together |
| PerfCapture.CaptureIsWhole | internal/perf/recorder.go:174-203 | if nothing was lost and nothing is pending, the trace equals the one told by pairing the messages alone; every request has its one later response, which names its command, and its span; every event has its mark |
| PerfAccount.HandleAccounted | internal/perf/recorder.go:230-323 | every message keeps the account exact: pending requests, all counters and all entries are those told from the messages alone, by which request each response settles |
| PerfAccount.ResponseSettles | internal/perf/recorder.go:282-315 | in every state: a response to a waiting request is completed if and only if both commands have one digest, whatever its success, and adds exactly the span from request to response; otherwise it is a mismatch; to no waiting request it is unmatched |
| PerfCapture.TimesArePeaks | internal/perf/recorder.go:230-238 | every message is recorded at the latest time read by then; readings that run backwards are counted |
| PerfStream.DecodeMessage | internal/perf/stream.go:137-177 | accepted messages have valid numbers and non-empty names |
| PerfStream.MessageExactly | internal/perf/stream.go:137-177 | a body is a given message if and only if it decodes to an envelope with that type, number, name and result |
| PerfStream.FeedSplit | internal/perf/stream.go:37-92 | feeding a + b is feeding a, then b |
| PerfStream.AnyChunks | internal/perf/stream.go:37-92 | however a stream is cut into writes, the recorder ends in the same state |
| PerfStream.FeedBody | internal/perf/stream.go:63-78 | copying part of a body at once equals taking it byte by byte |
| PerfStream.FrameObserved | internal/perf/stream.go:37-126 | for every frame the decoder reads: the observer delivers its body if and only if the line holds no carriage return, and otherwise gives up on the stream |
| PerfStream.ObserverFollowsDecoder | internal/perf/stream.go:37-126 | the same told from any input that the decoder accepts |
| PerfStream.DecoderFollowsObserver | internal/perf/stream.go:94-126 | a header block the observer accepts is accepted by the decoder with the same length |
| PerfStream.ReturnTolerated | internal/perf/stream.go:94-126 | the decoder accepts a line with a carriage return that the observer refuses, for every length |
| PerfStream.FramesObserved | internal/perf/stream.go:37-92 | observing what the encoder writes delivers exactly the bodies, in order |
| PerfRecording.WriteKeepsSound | internal/perf/recorder.go:157-169 | every write, of any bytes in either direction, keeps the recording sound and one framing error per disabled stream |
| PerfRecording.CompleteTraceIsWhole | internal/perf/recorder.go:174-228 | a trace marked complete comes from two streams read to their end without error and shows all that was observed |
| PerfRecording.TraceIsConsistent | internal/perf/recorder.go:174-228 | every trace: no overlap on a lane, no request number in two spans, exactly the lanes with spans named, all requests and events accounted for |
| PerfRecording.SummaryIsExact | internal/perf/recorder.go:282-315 | every command with a correlated response, and no other, has a summary: how many, how many failed, total and longest time; if nothing was dropped, these are the spans of the trace |
| PerfRecording.TraceIsAccounted | internal/perf/recorder.go:174-323 | of every trace, complete or not: each count is the number of messages that met that fate, the entries are those of answers and events in order as far as there is room, the unfinished are the waiting requests |
| PerfRecording.CompleteExactly | internal/perf/recorder.go:174-203 | a trace is marked complete if and only if the proxy did not fail, both streams were read to their end, every message was in order, every request answered, all entries found room and the clock never ran backwards; framing errors are counted per stream not read to its end |
| PerfInterleaving.ObservedAlone | internal/perf/recorder.go:157-169 | whatever the interleaving, what is recorded of one direction is what a recorder would that saw only that direction |
| PerfInterleaving.ConversationObserved | internal/perf/stream.go:37-92 | two directions of framed messages, cut into any writes and interleaved in any way: exactly those messages are recorded, each direction in order, without framing errors |
| PerfInterleaving.ObservedClocked | internal/perf/recorder.go:230-238 | the n-th message recorded is timed by the latest of the first n readings of the clock |
| PerfInterleaving.DurationExactly | internal/perf/recorder.go:174-238 | a trace lasts until the latest reading of all, and counts the readings behind an earlier one |
| PerfObserver.ContentLength | internal/perf/stream.go:94-126 | the loop over lines accepts exactly a single length line without stray line ends |
| PerfObserver.Recorder.OnRequest | internal/perf/recorder.go:251-280 | the fields after a request are those of the specification, the lane search included |
| PerfObserver.Recorder.OnResponse | internal/perf/recorder.go:282-315 | the fields after a response, the summary included, are those of the specification; when it completes, mismatches or matches nothing is told by PerfAccount.ResponseSettles |
| PerfObserver.Recorder.Observe | internal/perf/stream.go:37-92 | the loop over a write, with bulk copying, equals the byte-at-a-time automaton |
| PerfObserver.Recorder.Write | internal/perf/recorder.go:157-169 | accepts all bytes; a finished recorder does not change |
| PerfObserver.Recorder.Finish | internal/perf/recorder.go:174-228 | the first call freezes the trace with its summary and empties the recorder; later calls return the same trace and change nothing |
| PerfObserver.NewRecorder | internal/perf/recorder.go:127-142 | a recorder exists exactly for event limits in 1..100000 |
| Executor.StepKeepsOrder | internal/bridge/executor.go:83-221 | accepted jobs are, in order, the completed ones, the running one and the queue; completions carry their job's id and generation |
| Executor.StepKeepsIds | internal/bridge/executor.go:91-122 | operation ids are unique, and exactly the accepted calls' jobs were accepted, once each |
| Executor.StepKeepsFence | internal/bridge/executor.go:135-180 | one client per generation, and every client replaced is closed or about to be |
| Executor.StepKeepsDrain | internal/bridge/executor.go:189-210 | the WaitGroup counts the calls under way; the worker drains only when none is left and none can come |
| Executor.RunKeeps | internal/bridge/executor.go:83-221 | all of this in every state of every interleaving; why calls are refused and what completions carry: ExecutorRuns |
| Executor.AcceptedOnce | internal/bridge/executor.go:212-221 | an accepted operation is completed exactly once, or running, or queued, never two of these |
| Executor.RejectedNever | internal/bridge/executor.go:115-127 | an operation whose submission failed is never run, queued or completed; it failed for the reasons of ExecutorRuns.RefusalExplained |
| Executor.OneClientPerGeneration | internal/bridge/executor.go:98-106 | operations with one generation ran on one client |
| Executor.ExitLeavesNothing | internal/bridge/executor.go:189-210 | when the worker has left, the queue is empty and every accepted operation is completed |
| Executor.RunGrows | internal/bridge/executor.go:83-221 | generations never fall and stay after Close; completions, decided calls and an exited worker stay as they are |
| Executor.NeverStuck | internal/bridge/executor.go:189-210 | after Close some step of the worker or of a call under way is possible until the worker has left |
| ExecutorRuns.OwnerDecides | internal/bridge/executor.go:135-180 | in every interleaving the Replace and Close calls alone decide whether the executor is closed, its generation, its client and which clients are discarded |
| ExecutorRuns.RefusalExplained | internal/bridge/executor.go:83-127 | in every run a refused call was refused because the executor was closed or because its own context ended |
| ExecutorRuns.AdmittedUnder | internal/bridge/executor.go:91-109 | every call was admitted while open and carries the generation and client in force at that moment |
| ExecutorRuns.SubmitAccepted | internal/bridge/executor.go:83-122 | a call on an open executor with room in the queue is accepted and queued behind the others |
| ExecutorRuns.OutcomesDelivered | internal/bridge/executor.go:212-221 | in every run the i-th completion carries the outcome of the i-th operation that finished |
| ExecutorRuns.BacklogDone | internal/bridge/executor.go:189-221 | a worker alone completes every operation accepted so far |
| ExecutorRuns.ClosingEnds | internal/bridge/executor.go:159-210 | from a closed state only so many steps are left, however all are interleaved |
| ExecutorRuns.ClosingCompletes | internal/bridge/executor.go:159-210 | from every closed state of a run the worker can leave without help of the owner, with every accepted operation completed |
| Executor.BridgeExecutor.Admission | internal/bridge/executor.go:91-109 | one step of the protocol; refused exactly if closed |
| Executor.BridgeExecutor.Install | internal/bridge/executor.go:135-154 | one step of the protocol; returns the generation in force |
| Executor.BridgeExecutor.Shut | internal/bridge/executor.go:159-180 | one step of the protocol; idempotent |
| Executor.BridgeExecutor.Drain | internal/bridge/executor.go:199-207 | the draining loop ends with an empty queue and a completion for every accepted job, with its outcome |
| DapLifecycle.ReduceLifecycle | internal/dap/lifecycle.go:56-97 | phases never go back and move forward on every request taken; the attach response is due exactly on configurationDone while configuring |
| DapSessionRuns.StepKeeps | internal/dap/session.go:52-358 | every request and notice keeps numbering, order of messages, ownership of the backend and the count of responses |
| DapSessionRuns.RunKeeps | internal/dap/session.go:52-358 | in every run: numbers are consecutive; the attach response comes at most once, for the accepted attach, directly after the configurationDone response; no target event before it or after the end; attaches minus disconnects is 0 or 1 and equals ownership; responses equal requests but for an unanswered attach |
| DapSessionRuns.HandleTurns | internal/dap/session.go:52-112 | what one request adds: exactly one response to it; for an accepted attach the initialized event; for an accepted configurationDone its response and the one to the attach |
| DapSessionRuns.ServedWhenAllowed | internal/dap/requests_m2.go:12-74 | inspection commands succeed or reach the backend only while attached, breakpoint commands also while configuring; neither changes the lifecycle |
| DapSessionRuns.AttachIs | internal/dap/session.go:174-196 | an attach the backend accepted is never undone on the spot |
| DapSessionRuns.RunForward | internal/dap/lifecycle.go:56-97 | over every run phases only move forward |
| DapSessionRuns.DisconnectIs | internal/dap/session.go:269-295 | a disconnect fails exactly at its arguments, because the session is over or because the backend does not let go; otherwise it ends the session |
| DapSessionTold.RequestExactly | internal/dap/session.go:52-323 | every request in every state: whether it succeeds, which backend call it makes, the phase after it and the messages it adds, from phase, arguments and the backend's answers |
| DapSessionTold.NoticeExactly | internal/dap/session.go:116-147 | every notice in every state: a target notice adds exactly one event while attached, stopped if and only if stopped and continued if and only if running, and nothing otherwise; output, termination and close likewise |
| DapSessionTold.EventsExactly | internal/dap/session.go:116-147 | the events of every run are exactly those its inputs call for in their phases, in order |
| DapSessionTold.ClientBelieves | internal/dap/session.go:325-332 | over every run the last of stopped and continued sent is that of the last known execution published while attached |
| DapFrontend.Session.Handle | internal/dap/session.go:52-112 | the object's fields and returned messages are those of the specification, for every request |
| DapFrontend.Session.MessagesForEffects | internal/dap/session.go:304-323 | the loop sends one message per effect, in order |
| DapFrontend.Session.PublishTargetState | internal/dap/session.go:116-126 | sends what the specification does, which DapSessionTold.NoticeExactly states: the event that names the execution while attached, nothing otherwise |
| DapFrontend.Session.Terminate | internal/dap/session.go:141-147 | sends what the specification does: ends the session once, keeping ownership for Close |
| DapFrontend.Session.Close | internal/dap/session.go:30-40 | if it succeeds, every attach has its disconnect |
| HelperRuns.KeepsOrCounts | bridge/timemachine_helper.py:167-182 | events are kept up to the limit and the rest counted, saturating |
| HelperRuns.LastDecides | bridge/timemachine_helper.py:167-175 | if nothing is lost, the last notice about the trace decides its state |
| HelperRuns.LossIsUnknown | bridge/timemachine_helper.py:176-189 | after any loss the trace state is unknown and the generation moves on, unless the session faults |
| HelperRuns.StayMeansQuiet | bridge/timemachine_helper.py:149-189 | if a collect keeps the generation, it saw no regression, replacement, start, clear, drop, ignored or failed callback |
| HelperRuns.RunKeeps | bridge/timemachine_helper.py:142-304 | in every run generations never fall, stay the same only over quiet refreshes, and the session knows what the last refresh saw |
| HelperRuns.GenerationBrackets | bridge/timemachine_helper.py:142-304 | two responses of any run with one generation enclose only quiet refreshes: the info is constant, the count never falls |
| HelperRuns.ReadIsFenced | bridge/timemachine_helper.py:278-297 | packets are returned only for the generation and range asked for, which lay within the trace at the quiet refreshes around the read |
| HelperRuns.StatusReports | bridge/timemachine_helper.py:210-226 | the invalidated flag of a status says exactly whether the generation moved since the last status |
| HelperExact.RefreshExactly | bridge/timemachine_helper.py:142-208 | a refresh fails if and only if a native call fails, a result is malformed or no generation is left; otherwise generation, count, info, trace state and waiting notifications are those the native results call for |
| HelperExact.ReadExactly | bridge/timemachine_helper.py:259-297 | a read returns the packets of the native call if and only if the generation is the one its first refresh leaves, the range lies within the count, the call delivers and the refresh after it finds the same trace; which refusal it is otherwise |
| HelperExact.ControlExactly | bridge/timemachine_helper.py:255-304 | start and stop are accepted if and only if the native side does them and both refreshes succeed; the state reported is the requested one unless the notices after it decide otherwise |
| HelperExact.StatusExactly | bridge/timemachine_helper.py:210-226 | a status reports what its refresh found and hands out what waited once |
| HelperExact.OpenExactly | bridge/timemachine_helper.py:231-252 | an open is refused without an effect, fails for good, or connects with the info size of its release and reports |
| HelperExact.OthersExactly | bridge/timemachine_helper.py:228-276 | a close ends the session for good; which requests are refused before any native call, and that they change nothing |
| HelperExact.RunCounts | bridge/timemachine_helper.py:142-304 | all of this applies to every request of every run: a session that has not faulted keeps its counts in range |
| HelperWorker.Helper.TakeEvents | bridge/timemachine_helper.py:167-181 | the loop over events equals the fold of the specification |
| HelperWorker.Helper.Collect | bridge/timemachine_helper.py:149-189 | the fields after a notification are those of the specification, malformed ones and exhausted generations included |
| HelperWorker.Helper.Refresh | bridge/timemachine_helper.py:191-208 | the fields after a refresh are those of the specification, with every failure |
| HelperWorker.Helper.Dispatch | bridge/timemachine_helper.py:228-304 | state and response are those of the specification, for every operation |
| BreakpointTable.RemoveOwned | internal/multi/breakpoint_placer.go:133-151 | removing an owned entry takes exactly one match away and nothing else |
| BreakpointPlacer.TokensDistinct | internal/multi/breakpoint_placer.go:222 | different hints have different tokens |
| BreakpointPlacer.LineNumberExactly | internal/multi/breakpoint_placer.go:265-275 | a location has a line number if and only if it is something, a hash and that number as printed |
| BreakpointPlacer.DeleteExactOwned | internal/multi/breakpoint_placer.go:133-151 | spares what is not ours on every path; a success leaves fewer matches |
| BreakpointPlacer.ClearExactToken | internal/multi/breakpoint_placer.go:116-128 | ends because matches fall; success means no entry with the token is left |
| BreakpointPlacer.ClearOwned | internal/multi/breakpoint_placer.go:77-110 | on every path entries without the token and other cores stay; success means no entry with the token is left |
| BreakpointPlacer.SetOwned | internal/multi/breakpoint_placer.go:36-75 | on every path entries without the token and other cores stay |
| BreakpointPlacer.SetSucceeds | internal/multi/breakpoint_placer.go:36-75 | success means one new entry, described exactly by what is returned |
| BreakpointPlacer.SetExactly | internal/multi/breakpoint_placer.go:36-75 | a placement succeeds if and only if `b` was accepted, the listing after it shows one new entry with the token and its location names a line; which fields are returned in every case |
| BreakpointPlacer.SetTables | internal/multi/breakpoint_placer.go:36-75 | something to clear is returned exactly if `b` was accepted, for the right core and hint |
| BreakpointPlacer.ClearRestores | internal/multi/breakpoint_placer.go:36-110 | once `b` was accepted, a successful clear, now or after any number of failed ones, restores every table exactly |
| BreakpointPlacer.NothingReturned | internal/multi/breakpoint_placer.go:48-50 | if nothing to clear is returned, the tables are unchanged if and only if `b` did not take effect while reporting failure |
| BreakpointPlacer.LeakExample | internal/multi/breakpoint_placer.go:48-50 | that case occurs |
| BreakpointClient.NewlyPlaced | internal/multi/breakpoint_placer.go:249-264 | the two loops find the one new entry with the token, if there is exactly one |
| BreakpointClient.Placer.ClearExactToken | internal/multi/breakpoint_placer.go:116-128 | the loop equals the specification |
| BreakpointClient.Placer.Clear | internal/multi/breakpoint_placer.go:77-110 | commands sent and outcome are those of the specification |
| BreakpointClient.Placer.Set | internal/multi/breakpoint_placer.go:36-75 | commands sent and outcome are those of the specification; a source is remembered exactly on success |
| BreakpointClient.Placer.SetThenClear | internal/multi/breakpoint_placer.go:36-110 | set and clear together change nothing if something was returned and the clear succeeds |
| BreakpointRuns.ClearSucceedsExactly | internal/multi/breakpoint_placer.go:77-128 | if MULTI obeys, a clear succeeds if and only if the core exists, the breakpoint has a hint, and its handle, if any, is a number that no breakpoint with another command uses |
| BreakpointRuns.ClearNeeds | internal/multi/breakpoint_placer.go:77-110 | whatever MULTI does, these conditions are necessary |
| BreakpointRuns.SetIsClearable | internal/multi/breakpoint_placer.go:36-110 | what a placement returned meets them as long as only entries with its token come and go |
| BreakpointRuns.ClearUndoesSet | internal/multi/breakpoint_placer.go:36-128 | hence once `b` was accepted, a clear against an obeying MULTI succeeds and restores every table |
| BreakpointRuns.RunSpares | internal/multi/breakpoint_placer.go:36-151 | no run of placements and clears, failing in any way, touches entries that carry none of its tokens |
| BreakpointRuns.RunRestores | internal/multi/breakpoint_placer.go:36-151 | exact undo over every run under any number of tokens: if the last operation under each token on each core is a successful clear, every table is as before |
| ProfileCsv.CsvInput.ReadRecord | internal/profile/csv.go:56-162 | the byte loop equals the automaton, read failures and the input limit included, and leaves the reader behind the record on the right line |
| ProfileCsvText.LinesCounted | internal/profile/csv.go:86-161 | for every input, lines advance by the line feeds consumed, and what is left is a suffix |
| ProfileCsvText.RoundTrip | internal/profile/csv.go:52-162 | records written with the quoting of section 2 of RFC 4180, with LF or CRLF, embedded quotes, commas and newlines, blank ones included, read back exactly, and then the end |
| ProfileCsvText.StartLine | internal/profile/csv.go:63 | each record starts on the first line plus the line feeds before it |
| ProfileCsvText.LastRead | internal/profile/csv.go:91-105 | the last record needs no line end |
| ProfileCsvExact.RecordShape | internal/profile/csv.go:56-162 | from any state of the automaton, what was read of a record is the rest of the field under way, more fields quoted as RFC 4180 asks, and a line end or the end of the input |
| ProfileCsvExact.ReadsExactly | internal/profile/csv.go:52-162 | for every input: a record is read, with these cells, this rest and this line, if and only if the input is the text of such fields, a line end and that rest, or the last line without one |
| ProfileDecimal.ValidateNumber | internal/profile/import.go:234-255 | accepts exactly digits with at most one inner point, if allowed, up to 128 digits; the precision error is returned exactly if 129 digits come before the first byte that does not belong |
| ProfileDecimal.CompareDecimal | internal/profile/import.go:259-289 | the loop equals the comparison below |
| ProfileDecimal.CompareExact | internal/profile/import.go:257-289 | for all decimals the result is the sign of the exact difference of the numbers they denote |
| ProfileDecimal.ComparePreorder | internal/profile/import.go:257-289 | hence a total preorder |
| ProfileDecimal.ZerosDoNotCount | internal/profile/import.go:262-281 | zeros in front and behind make no difference: 01.50 is 1.5 |
| ProfileRanking.RankRows | internal/profile/import.go:291-313 | one ranking for each metric that is not a coverage state: missing rows in order, the others by value descending with ties in row order |
| ProfileRanking.RankingParts | internal/profile/import.go:297-309 | each row is in exactly one of the two lists, once |
| ProfileRanking.OrderIsUnique | internal/profile/import.go:305-309 | there is only one such order |
| ProfileImport.MetricValue | internal/profile/import.go:211-232 | a cell is accepted exactly if it is a tolerated missing value, a known coverage state, or a number in range, percentages up to 100 as exact reals; which value it has, and which error |
| ProfileImport.ReadRows | internal/profile/import.go:116-151 | all rows are read exactly if every cell is acceptable within the row and cell limits; otherwise the row reported is the first that is not |
| ProfileImport.RowsAreDecimals | internal/profile/import.go:116-155 | every value of a metric to be ranked is a decimal, because it passed as a number |
| ProfileImport.ImportRanked | internal/profile/import.go:116-155 | hence records become rows and rankings without further condition |

## Left out

- TraceCapture.ValidateCapture: hex and JSON decoding, the schema name, the ABI sizes and the source identity (kind, session, labels, digests) are single checks on fields that nothing else reads; packets and info arrive as bytes.
- TraceNormalizer.Normalize: the canonical digest of the capture, its marshalling error and the copied source fields.
- TraceDecoder.DecodePacket: the parts of a native packet the normalizer never reads (opcodes, register and data values, wall clock fields).
- ChromeExporter.Exporter.Track: the text of a track name, which adds a constant core suffix to the context it carries here.
- ChromeExporter.ChromeTrace: the schema and digest checks of the report and the texts of process names, which carry their clock domain here; times before the origin, which do not occur, are not printed.
- DapCodec.Decoder.Decode: the JSON grammar of the envelope inside a frame; the body is returned as bytes.
- PerfStream.DecodeMessage: the JSON grammar that turns a body into an envelope is the environment's.
- PerfObserver.Recorder.Finish: the summary is a map; its listing sorted by command and the rounding to floating-point microseconds are not modelled, times are integer nanoseconds.
- Nil operations and results of operations in the executor: an outcome is an opaque value. Timing and fairness of goroutines: no bound on when an accepted operation runs is stated, only that no state is stuck, that a worker alone works off what was accepted, and that closing ends.
- The argument checks of the session commands other than initialize, attach, configurationDone and disconnect: each is one accepted-or-not flag, as is whether the backend's result has the promised shape.
- Transport, queues and pumping threads around the session and the helper; requests and refreshes come in any order instead.
- Other clients changing MULTI's breakpoint table between commands; the listing text of MULTI, which is taken as the table it lists, without duplicate indexes.
- SourceKnown of the placer and the mutex around its memory.
- ProfileRanking.RankRows: the library's stable sort is an insertion sort here; its result is the same because the order is unique.
- ProfileImport.ReadRows: the identity columns of a row and its source line; the parsing of the mapping document, whose columns and names arrive resolved and distinct.
- ProfileCsv.CsvInput.ReadRecord: how far the buffered reader reads ahead is left to the environment, which says when more than the limit was fetched and when reading fails.
- The debugger core, trace control, process launch, configuration, command line, control record files and the NDJSON side of the bridge.
