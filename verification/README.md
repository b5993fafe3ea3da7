# ChronosDB distributed grouped queries: a Dafny model

This project models the path that carries one grouped FLOAT64 query fragment per tablet to the nodes
that serve them and brings back a stream of partial aggregates, all or nothing, over sockets that may
cut every frame anywhere. It also models the parts of the mutable grouped path that repeat the same
protocol with other code.

The layers, from the wire up:

- `Layout`, `ExchangeFrames`, `ResponseFrames`, `RequestFrames`, `ResponseEncoder`, `WireOffsets`: fixed
  layouts with header, payload and trailer checksums; encoders, decoders, the early header check and the
  place of every value on the wire.
- `FrameReader`, `Chunking`, `ResponseWriter`, `WirePipe`: the incremental reader, the write cursors and
  the byte pipe between them, for every fragmentation on both sides.
- `GroupedStreams`, `StreamClient`, `Receiver`, `MutableStreams`: the stream protocol and its separate
  validators, frame by frame and as a batch.
- `Retry`, `GroupedSender`: the five-state retry sender with capped doubling backoff.
- `Moments`, `Coordinator`, `FinishedGroups`, `ResultOrder`, `Execution`, `GroupedExecution`: fan-out over
  tablets, delivery at most once, the merge of complete streams into groups, field by field, and their
  listing in one order.
- `TcpExecution`, `TcpSteps`, `TcpInvariant`, `TcpPoll`, `TcpDeadlines`, `TcpRuns`, `AllOrNothing`,
  `GroupedTcpExecution`, `PollWait`: the poll owner with its clients, counters, deadlines and rebinding, and
  what holds over whole lives of it. A client is what it has read so far; a step of a poll hands it the bytes of one read.
- `Stranded`, `TcpLiveness`: when a life can lose a tablet, and why it is otherwise never stuck.
- `EndToEnd`: from a worker's result to the rows the coordinator counts, over every life.
- `Reachable`: concrete lives that complete, one of them after a rebinding, so the theorems about completed
  and rebound lives are not empty.
- `MutableExecution`, `MutableOwner`, `MutableSteps`, `MutableLives`: the latches of the mutable execution, its owner with
  local and remote slots, and its polls as sequences of steps.
- `ServerSweep`: the connection sweep of the two TCP servers.

Where the source updates objects, the model has a class whose methods are proved against a pure
specification function; theorems over whole runs are lemmas about those functions. Methods ask only for
what they need to run (for instance `Runnable`); that every reachable state has much more is proved
once, over all runs. Sockets, clocks, peers, workers and coordinators' outside answers are parameters, so
a theorem over all steps is a theorem over everything the outside may do.

Assumptions that are parameters, stated where they are used: the checksum is any function from bytes to
32 bits; the nested dispatch codec is any pair with `DispatchCodec.Exact` (its halves are inverse and keep
the length bounds); floating-point arithmetic is any functions (`Moments.Floats`), while row counts and
comparisons are exact. A status is its code.

Points where the code does less than one might expect, each with its exact condition:

- A response does not always survive encoding unchanged: the group key is made canonical.
  `ResponseFrames.ResponseExactRoundTrip` gives the condition, `NegativeZeroKeyChanges` an input.
- The early response check and the whole-frame decoder report different codes for an unsupported version
  around a nil tablet: `ResponseFrames.ResponseHeaderCheckCode`, `VersionTwoNilTablet`.
- The TLS client completes on a success frame with a leader hint that its sender then refuses:
  `GroupedStreams.ClientAndSenderAgree`, `HintedSuccessIsRefused`.
- A slot whose backoff deadline saturates at the end of time is never started again by the float64 owner,
  although its sender would still begin: `PollWait.RetriesAgainExactly`, `LongestBackoffIsNever`.
- The two wait computations differ when a deadline is saturated, nothing else bounds the wait and the end
  of time is nearer than the limit: `PollWait.WaitsAgree`, `WaitsDiffer`.
- The finished minimum of a key need not be the least of its partials' minima: a NaN that comes first in a
  fragment hides the numbers behind it. `FinishedGroups.FinishedMinimum` and `FinishedMaximum` give the
  result and the exact condition, `Moments.NanMinimumDependsOnOrder` an input.
- An owner accepts an execution on which an attempt is already under way, and never asks that tablet
  again: `Stranded.BegunByHandIsLost`, with the exact condition in `Stranded.CoupledExactly`.

## Model

| member | source | states |
|---|---|---|
| `Layout.ReadWritten` | src/cluster/distributed_grouped_query_transport.cpp:280-329 | reading a layout back from the bytes written for its fields gives the fields |
| `Layout.WriteRead` | src/cluster/distributed_grouped_query_transport.cpp:331-388 | writing the fields read from any bytes of the right length gives those bytes back |
| `Layout.RecordReads` | src/query/distributed_grouped_exchange.cpp:251-305 | a checksummed record is recognised and yields its fields, for any checksum function |
| `Layout.RecordWrites` | src/query/distributed_grouped_exchange.cpp:307-392 | anything recognised as a record is the record of the fields it yields |
| `ExchangeFrames.PartialRoundTrip` | src/query/distributed_grouped_exchange.cpp:251-392 | a valid partial decodes from its own encoding with its group key in canonical bits |
| `ExchangeFrames.PartialCanonical` | src/query/distributed_grouped_exchange.cpp:307-392 | bytes that decode to a partial re-encode to themselves |
| `ExchangeFrames.TerminalRoundTrip` | src/query/distributed_grouped_exchange.cpp:394-471 | a valid empty-stream terminal decodes from its own encoding |
| `ExchangeFrames.TerminalCanonical` | src/query/distributed_grouped_exchange.cpp:423-471 | bytes that decode to a terminal re-encode to themselves |
| `ExchangeFrames.NanByBits` | src/query/distributed_grouped_exchange.cpp:68-74 | the NaN test is: every exponent bit set and a fraction that is not zero |
| `ResponseFrames.StatusBijection` | src/cluster/distributed_grouped_query_transport.cpp:99-162 | the two status maps are inverse and no other byte is a status |
| `ResponseFrames.HeaderBijection` | src/cluster/distributed_grouped_query_transport.cpp:437-479 | header bytes read as a header exactly when they are the bytes written for it |
| `ResponseFrames.ResponseRoundTrip` | src/cluster/distributed_grouped_query_transport.cpp:390-597 | every response that encodes decodes to itself in canonical form |
| `ResponseFrames.ResponseExactRoundTrip` | src/cluster/distributed_grouped_query_transport.cpp:390-597 | it decodes to exactly itself if and only if its group key is already canonical |
| `ResponseFrames.NegativeZeroKeyChanges` | src/query/distributed_grouped_exchange.cpp:68-74 | a response keyed by negative zero comes back keyed by zero |
| `ResponseFrames.ResponseCanonical` | src/cluster/distributed_grouped_query_transport.cpp:494-597 | bytes that decode to a response re-encode to exactly those bytes |
| `ResponseFrames.EncodesExactly` | src/cluster/distributed_grouped_query_transport.cpp:390-436 | a response encodes if and only if route, ids, status-payload shape, nested ids, payload and hint are valid, each written out; the only refusal is an invalid argument |
| `ResponseFrames.DecodedResponses` | src/cluster/distributed_grouped_query_transport.cpp:494-597 | a response comes out of the decoder for some bytes if and only if its route, identity, status-payload shape, hint and nested payload are valid and its key canonical |
| `ResponseFrames.ResponseHeaderCheckExact` | src/cluster/distributed_grouped_query_transport.cpp:231-263 | if a frame decodes, the early check of its header announces exactly its length |
| `ResponseFrames.ResponseFrameLength` | src/cluster/distributed_grouped_query_transport.cpp:231-263 | an announced length is past the header and within the largest frame |
| `ResponseFrames.ResponseHeaderCheckCode` | src/cluster/distributed_grouped_query_transport.cpp:231-263 | a rejected header gets the decoder's code if and only if it does not read as an unsupported version around a nil tablet |
| `ResponseFrames.VersionTwoNilTablet` | src/cluster/distributed_grouped_query_transport.cpp:231-263 | a version-two header with a nil tablet: unsupported to the early check, corrupt to the decoder |
| `ResponseEncoder.ByteWriter.WriteExact` | include/chronos/common/byte_writer.hpp:14-45 | appends the bytes exactly when they fit, otherwise changes nothing |
| `ResponseEncoder.PutHeader` | src/cluster/distributed_grouped_query_transport.cpp:437-479 | filling the buffer field by field spells the sealed header |
| `ResponseEncoder.EncodeInto` | src/cluster/distributed_grouped_query_transport.cpp:390-492 | the buffer-filling encoder returns, on every response, what the pure encoder returns |
| `WireOffsets.TerminalOnWire` | src/query/distributed_grouped_exchange.cpp:394-421 | an encoded terminal is its magic, then each value in its width in wire order, then the checksum of both |
| `WireOffsets.PartialOnWire` | src/query/distributed_grouped_exchange.cpp:251-305 | the same for a partial and its fifteen fields |
| `WireOffsets.FlagBits` | src/query/distributed_grouped_exchange.cpp:251-305 | which flag bit stands for what |
| `WireOffsets.ResponseOnWire` | src/cluster/distributed_grouped_query_transport.cpp:390-492 | an encoded response is a header that says exactly what the response says, field by field and closed by its checksum, then the nested frame of its payload, then the checksum of all before it |
| `WireOffsets.RequestOnWire` | src/cluster/distributed_grouped_query_transport.cpp:280-329 | the same for a request around its dispatch frame |
| `RequestFrames.HeaderBijection` | src/cluster/distributed_grouped_query_transport.cpp:292-318 | request header bytes read as a header exactly when they are the bytes written for it |
| `RequestFrames.RequestRoundTrip` | src/cluster/distributed_grouped_query_transport.cpp:280-388 | every request that encodes decodes to itself, given an exact dispatch codec |
| `RequestFrames.RequestCanonical` | src/cluster/distributed_grouped_query_transport.cpp:331-388 | bytes that decode to a request re-encode to exactly those bytes |
| `RequestFrames.RequestHeaderCheckExact` | src/cluster/distributed_grouped_query_transport.cpp:188-229 | if a request frame decodes, the early check announces exactly its length |
| `RequestFrames.RequestHeaderCheckCode` | src/cluster/distributed_grouped_query_transport.cpp:188-229 | a rejected request header gets the code the decoder gives every completion of acceptable length |
| `FrameReader.FirstFrameExtends` | src/cluster/distributed_grouped_query_transport.cpp:654-693 | what the front of a stream holds does not change when more bytes arrive behind it |
| `FrameReader.Reader.Consume` | src/cluster/distributed_grouped_query_transport.cpp:599-639 | one call consumes at least one byte or fails, never passes the expected length, keeps failure sticky and agrees with the step on the bytes seen so far |
| `FrameReader.Reader.FillHeader` | src/cluster/distributed_grouped_query_transport.cpp:654-676 | collects header bytes and learns the frame length from a complete header |
| `FrameReader.Reader.FillFrame` | src/cluster/distributed_grouped_query_transport.cpp:676-693 | collects the rest of a frame and yields it once complete |
| `Chunking.FeedIsParse` | src/cluster/distributed_grouped_query_transport.cpp:654-693 | feeding any chunks, leftovers included, is parsing their concatenation at once |
| `Chunking.ChunkingIndependence` | src/cluster/distributed_grouped_query_transport.cpp:599-693 | two ways of cutting the same stream, damaged or not, give the same frames and the same final reader |
| `Chunking.FramesParse` | src/cluster/distributed_grouped_query_transport.cpp:654-693 | frames laid end to end parse back one by one with nothing left |
| `ResponseWriter.WriteAllConserves` | src/cluster/distributed_grouped_query_transport.cpp:708-765 | over any schedule of short writes, what was emitted and what is owed are together the frames in order |
| `ResponseWriter.WriteOnceExactly` | src/cluster/distributed_grouped_query_transport.cpp:747-757 | a write counts if and only if it sent at least one byte and no more than the first frame has left; it sent those bytes, and moves on exactly at the end of the frame |
| `ResponseWriter.Writer.Advance` | src/cluster/distributed_grouped_query_tls.cpp:372-406 | one write moves the cursors exactly as the specification says and moves on at a frame's end; a refused one drops all frames with its code |
| `GroupedStreams.ClientCompletesExactly` | src/cluster/distributed_grouped_query_tls.cpp:160-195 | frame by frame the client completes with exactly the streams that are correlated, contiguous and closed once |
| `GroupedStreams.AcceptFailure` | src/cluster/distributed_grouped_query_tls.cpp:160-195 | a client that stops reports exhaustion for its own frame beyond the limit and corruption for everything else |
| `GroupedStreams.JudgeExactly` | src/cluster/distributed_grouped_query_transport.cpp:944-1009 | delivered, rejected and refused streams, each written out in full, with what is delivered, the status and hint of a rejection and the code of a refusal |
| `GroupedStreams.DeliveredIsComplete` | src/cluster/distributed_grouped_query_transport.cpp:944-1009 | the sender delivers only complete streams |
| `GroupedStreams.ClientAndSenderAgree` | src/cluster/distributed_grouped_query_transport.cpp:944-1009 | on decoded streams the client completed on, the sender refuses none if and only if no success frame has a hint |
| `GroupedStreams.HintedSuccessIsRefused` | src/cluster/distributed_grouped_query_tls.cpp:160-195 | one hinted success frame completes the client and is refused by the sender |
| `StreamClient.Client.Receive` | src/cluster/distributed_grouped_query_tls.cpp:197-240 | one read drives the client as the frames in it, judged one by one, say, and refuses a coalesced suffix |
| `WirePipe.ReadEach` | src/cluster/distributed_grouped_query_tls.cpp:197-240 | a client object given reads one by one ends as the specified client over all of them |
| `WirePipe.ReceiveAllIsParse` | src/cluster/distributed_grouped_query_tls.cpp:197-240 | over any sequence of reads the client ends as if the bytes had been parsed at once |
| `WirePipe.ClientCompletesOnExactBytes` | src/cluster/distributed_grouped_query_tls.cpp:160-240 | the client completes with a list if and only if the bytes are that list's encoding and it is a client stream |
| `WirePipe.PipeDelivers` | src/cluster/distributed_grouped_query_tls.cpp:372-406 | for every write schedule and every fragmentation the client recovers the list the server wrote, keys canonical |
| `WirePipe.BytesDeliver` | src/cluster/distributed_grouped_query_tls.cpp:197-240 | the same for the bytes alone, without the schedule that wrote them |
| `WirePipe.CompletedPrefixIsWhole` | src/cluster/distributed_grouped_query_tls.cpp:197-240 | a client, whatever its limit, that completed on some of the bytes of a good stream has read all of them and holds exactly that stream |
| `Receiver.AdmittedExactly` | src/cluster/distributed_grouped_query_transport.cpp:781-801 | who gets through to the worker, and the code of each refusal |
| `Receiver.AnswerExactly` | src/cluster/distributed_grouped_query_transport.cpp:808-889 | a worker result is answered if and only if it is a failure whose leader lookup, if due, succeeded, or messages that are too many or one whole stream, or an empty result in place; the frames of the answer one by one, and the code otherwise |
| `Receiver.SendableExactly` | src/cluster/distributed_grouped_query_transport.cpp:808-889 | such an answer encodes if and only if route and ids are proper and the messages or the hint valid |
| `Receiver.EncodeMessages` | src/cluster/distributed_grouped_query_transport.cpp:849-871 | the loop checks and encodes message after message: frames leave only if all are in place and encode, and then in order |
| `Receiver.Respond` | src/cluster/distributed_grouped_query_transport.cpp:808-895 | an admitted request is answered if and only if its result can be answered and sent, said from the result alone; the frames are those of the answer, and the code of a refusal is given |
| `Receiver.Receive` | src/cluster/distributed_grouped_query_transport.cpp:781-895 | turned away with the code of the first check that fails; otherwise answered exactly when the worker result can be answered and sent, with exactly those frames |
| `Receiver.AnswerIsClientStream` | src/cluster/distributed_grouped_query_transport.cpp:834-889 | every stream the receiver emits within the client's frame limit is one the client completes on |
| `Receiver.AnswerIsJudged` | src/cluster/distributed_grouped_query_transport.cpp:834-889 | and the sender concludes from it what the worker's result says |
| `Receiver.RequestArrives` | src/cluster/distributed_grouped_query_transport.cpp:599-639 | however a request is cut, the server reads exactly that request |
| `Receiver.ExchangeConcludesWorkerResult` | src/cluster/distributed_grouped_query_transport.cpp:781-1009 | one remote call: through any cutting both ways the sender concludes exactly the worker's result |
| `Retry.SaturatingAdd` | src/cluster/distributed_grouped_query_transport.cpp:72-80 | the deadline is now plus delay, capped at the end of time |
| `Retry.DelayClosedForm` | src/cluster/distributed_grouped_query_transport.cpp:1031-1037 | the k-th delay is min(initial * 2^k, maximum) |
| `Retry.NextDelayDoubles` | src/cluster/distributed_grouped_query_transport.cpp:1031-1037 | the halving test computes the next delay of that closed form |
| `Retry.ApplyKeepsSound` | src/cluster/distributed_grouped_query_transport.cpp:921-1039 | every event keeps: budget, backoff iff deadline and then budget remains, succeeded iff result, delay in closed form |
| `Retry.BudgetRemains` | src/cluster/distributed_grouped_query_transport.cpp:921-931 | a ready or due sender always begins, so the exhausted-budget refusal cannot happen |
| `Retry.ApplySteps` | src/cluster/distributed_grouped_query_transport.cpp:921-1039 | accepted events cost one unit of the measure, refused ones change nothing, ended senders refuse everything |
| `Retry.FailureExactly` | src/cluster/distributed_grouped_query_transport.cpp:1011-1039 | a lost or rejected attempt falls back if and only if its code is unavailable, exhausted or an input-output error and budget is left, until now plus its delay; otherwise it gives up; either way it reports that code, with the hint of a rejection |
| `Retry.DeliveryExactly` | src/cluster/distributed_grouped_query_transport.cpp:944-1009 | a delivered stream during a wait is the result and ends the sender; at any other time it is refused |
| `Retry.NoEffect` | src/cluster/distributed_grouped_query_transport.cpp:944-1020 | answers outside a wait, refused streams and successes reported as transport failures change nothing, with their codes |
| `Retry.BeginExactly` | src/cluster/distributed_grouped_query_transport.cpp:921-942 | an attempt begins if and only if the sender is new or past its backoff; its number, and the code otherwise |
| `Retry.RunsTerminate` | src/cluster/distributed_grouped_query_transport.cpp:921-1039 | over every run, accepted events plus what the measure has left equal what it had |
| `Retry.EndedIsForever` | src/cluster/distributed_grouped_query_transport.cpp:921-1039 | no run moves a succeeded or failed sender |
| `Retry.RunIsSpaced` | src/cluster/distributed_grouped_query_transport.cpp:921-1039 | in every run from a reachable sender begins and fallbacks alternate and every begin waits out its deadline |
| `Retry.FallbackCauses` | src/cluster/distributed_grouped_query_transport.cpp:1022-1039 | in every run each fallback was caused by one of the three codes |
| `Retry.ExhaustedReportsCause` | src/cluster/distributed_grouped_query_transport.cpp:1022-1039 | in every run that gives up there is an event at which no further attempt was allowed, and the sender reports that event's code |
| `Retry.AttemptsAreSeparated` | src/cluster/distributed_grouped_query_transport.cpp:1022-1039 | in every run of a new sender attempt k+1 starts no earlier than the k-th fallback plus the k-th delay |
| `GroupedSender.Create` | src/cluster/distributed_grouped_query_transport.cpp:903-919 | a sender exists exactly for a sound configuration whose request encodes; the refusal is an invalid argument or the code of the encoder |
| `GroupedSender.GroupedQuerySender.BeginAttempt` | src/cluster/distributed_grouped_query_transport.cpp:921-942 | the object begins as the retry machine says and hands out the encoded request |
| `GroupedSender.GroupedQuerySender.CollectPayloads` | src/cluster/distributed_grouped_query_transport.cpp:971-1000 | the loop collects the payloads of exactly the success streams |
| `GroupedSender.GroupedQuerySender.AcceptResponses` | src/cluster/distributed_grouped_query_transport.cpp:944-1009 | the object's answer and state are the judged stream applied to the retry machine |
| `GroupedSender.GroupedQuerySender.RecordTransportFailure` | src/cluster/distributed_grouped_query_transport.cpp:1011-1020 | likewise for a transport failure |
| `GroupedSender.GroupedQuerySender.Reschedule` | src/cluster/distributed_grouped_query_transport.cpp:1022-1039 | the in-place scheduling is the specified one and keeps the invariant |
| `Moments.MergeAddsCounts` | src/query/distributed.cpp:430-455 | merging valid states succeeds exactly when the counts fit 64 bits, and adds them |
| `Moments.MergeIsWhole` | src/query/distributed.cpp:430-455 | merging one more partial into what a list of partials came to is what the longer list comes to, field by field; it fails exactly on overflow |
| `Moments.SumIsTotal` | src/query/distributed.cpp:451 | where no addition on the way rounds, the merged sum is the sum of all |
| `Moments.MinimumIsLeast` | src/query/distributed.cpp:452 | the merged minimum is the least of the partials' minima, unless the first of them is a NaN, which stays |
| `Moments.MaximumIsGreatest` | src/query/distributed.cpp:453 | the same for the maximum |
| `Moments.NanMinimumDependsOnOrder` | src/query/distributed.cpp:452 | with a NaN among the minima the merged one depends on the order |
| `Moments.MagnitudeOrders` | src/query/distributed.cpp:452-453 | the order on bit patterns is the order of the numbers they stand for |
| `Moments.MergeDescribesBoth` | src/query/distributed.cpp:446-449 | over the reals the merged mean and second moment are exactly those of both lists of values together |
| `Coordinator.AbsorbGathers` | src/query/distributed_grouped_exchange.cpp:719-745 | absorbing a payload keeps groups equal to keys mentioned, each with all its rows and with every field folded from its partials; it fails exactly on overflow |
| `Coordinator.OfferKeepsSound` | src/query/distributed_grouped_exchange.cpp:690-791 | an offer touches only its fragment, changes nothing when refused, and retained streams stay contiguous and closed once |
| `Coordinator.OfferNext` | src/query/distributed_grouped_exchange.cpp:690-752 | the next payload of an open stream is appended in canonical form if and only if no failure is latched, it is valid, both limits leave room and its key's count fits; the code otherwise |
| `Coordinator.OfferKeepsBounded` | src/query/distributed_grouped_exchange.cpp:690-752 | whatever is offered, the count of retained messages is what is retained, within both limits |
| `Coordinator.OfferRefuses` | src/query/distributed_grouped_exchange.cpp:690-718 | what is foreign, behind the end of a stream or too early is refused without effect, with its code |
| `Coordinator.WorkerFailureLatches` | src/query/distributed_grouped_exchange.cpp:793-805 | only the first failure of an unfinished tablet is latched |
| `Coordinator.RepeatIsHarmless` | src/query/distributed_grouped_exchange.cpp:704-710 | a retained sequence number offered again changes nothing, and conflicts exactly when the message was not retained |
| `Coordinator.Ascending` | include/chronos/common/uuid.hpp:33 | the walk over an ordered map of tablets: each once, in the order of their bytes from the first on |
| `Coordinator.MergeFragmentsTotals` | src/query/distributed_grouped_exchange.cpp:811-832 | merging fragments succeeds exactly when all are closed and all totals fit, with the totals of all of them and every field folded over the fragments in order |
| `Coordinator.FinishConservesRows` | src/query/distributed_grouped_exchange.cpp:807-852 | the query finishes exactly when no worker failed, every stream is closed and no count overflows; every key counts all its rows, and its sum, extrema, mean and second moment are folded from its partials by fragment and then over the fragments in order |
| `Coordinator.FinishCode` | src/query/distributed_grouped_exchange.cpp:807-832 | otherwise it reports the latched failure, or that a stream is open if the walk meets one before a count overflows, or that overflow |
| `FinishedGroups.FinishedSum` | src/query/distributed_grouped_exchange.cpp:807-832 | where no addition rounds, the finished sum of a key is the sum of those of all its partials, of all tablets |
| `FinishedGroups.FinishedMinimum` | src/query/distributed_grouped_exchange.cpp:807-832 | the finished minimum of a key over all tablets in all cases: the very first partial's if that is a NaN, otherwise the least over the fragments that do not start with one; so it is the least of all partials' minima if and only if the first is no NaN and no fragment that starts with one hides a smaller number |
| `FinishedGroups.FinishedMaximum` | src/query/distributed_grouped_exchange.cpp:807-832 | the same for the maximum |
| `ResultOrder.PrecedesIsTotal` | src/query/distributed_grouped_exchange.cpp:162-224 | for all options the result comparison is a strict order that decides between any two rows under different canonical keys |
| `ResultOrder.Present` | src/query/distributed_grouped_exchange.cpp:833-848 | the groups are listed, sorted and cut at the limit as specified |
| `ResultOrder.PresentationIsUnique` | src/query/distributed_grouped_exchange.cpp:833-848 | there is only one such listing of the same groups |
| `ResultOrder.ResultConservesRows` | src/query/distributed_grouped_exchange.cpp:807-852 | every row of the result counts all rows of its key over all tablets and holds what their partials come to, no key twice, and a key is missing only if the limit was reached by rows before it |
| `Execution.DeliverOffersInOrder` | src/cluster/distributed_grouped_query_execution.cpp:121-134 | a delivery offers the stream in order: all accepted, or a prefix, one refusal and one report |
| `Execution.DeliverRest` | src/cluster/distributed_grouped_query_execution.cpp:121-134 | a complete stream ends whole in its fragment, or a failure is latched and the fragment stays open |
| `Execution.PublishAgrees` | src/cluster/distributed_grouped_query_execution.cpp:112-146 | after publishing, slot flags, sender and fragment agree and no other tablet moved |
| `Execution.SettleKeepsSound` | src/cluster/distributed_grouped_query_execution.cpp:87-110 | every event on one sender keeps the whole execution consistent |
| `Execution.TakeKeepsStories` | src/cluster/distributed_grouped_query_execution.cpp:78-111 | every public call keeps each tablet's call log one of the allowed stories |
| `Execution.Run` | src/cluster/distributed_grouped_query_execution.cpp:78-146 | after every run the execution is consistent and the log tells every tablet's story |
| `Execution.AtMostOnce` | src/cluster/distributed_grouped_query_execution.cpp:87-146 | over every run a tablet's calls are nothing, its stream, a prefix with refusal and report, or one report; no sequence twice |
| `Execution.NewIsSound` | src/cluster/distributed_grouped_query_execution.cpp:23-58 | a created execution starts consistent and silent |
| `GroupedExecution.BuildSlots` | src/cluster/distributed_grouped_query_execution.cpp:31-52 | the loop builds one slot and one exact index entry per dispatch, or answers the first objection to any of them |
| `GroupedExecution.AdmissibleExactly` | src/cluster/distributed_grouped_query_execution.cpp:31-55 | a query is admissible exactly when no dispatch is objected to and the coordinator takes its tablets and limits |
| `GroupedExecution.Create` | src/cluster/distributed_grouped_query_execution.cpp:23-66 | an execution is created exactly when its authority and limits are admissible; any code but invalid argument is that of the first request that does not encode |
| `GroupedExecution.GroupedQueryExecution.BeginAttempt` | src/cluster/distributed_grouped_query_execution.cpp:78-85 | the object begins at the indexed sender and hands out its attempt number, target and encoded request, or refuses an unknown tablet |
| `GroupedExecution.GroupedQueryExecution.AcceptResponses` | src/cluster/distributed_grouped_query_execution.cpp:87-98 | answer, state and coordinator calls are the specified ones |
| `GroupedExecution.GroupedQueryExecution.RecordTransportFailure` | src/cluster/distributed_grouped_query_execution.cpp:100-110 | likewise for a transport failure |
| `GroupedExecution.GroupedQueryExecution.PublishTerminalState` | src/cluster/distributed_grouped_query_execution.cpp:112-146 | the flags, the coordinator and the calls after publishing are the specified ones |
| `GroupedExecution.GroupedQueryExecution.OfferAll` | src/cluster/distributed_grouped_query_execution.cpp:121-134 | the loop over a stream makes exactly the calls of the specified delivery |
| `GroupedExecution.TakeFits` | src/cluster/distributed_grouped_query_execution.cpp:69-111 | every call keeps slots, index, coordinator and log fitting together |
| `TcpInvariant.StartMoves` | src/cluster/distributed_grouped_query_tcp_execution.cpp:142-195 | starting a slot moves every counter exactly with its sender and client, abandons one attempt exactly when a connection is refused for good, opens a connection that has read nothing, and leaves no sender ready |
| `TcpInvariant.DriveMoves` | src/cluster/distributed_grouped_query_tcp_execution.cpp:387-426 | driving a slot does the same, abandons nothing, and a success is what the bytes read over the connection of this attempt say |
| `TcpInvariant.DueBegins` | src/cluster/distributed_grouped_query_tcp_execution.cpp:142-163 | a slot found due always begins, so the owner never sees that refusal |
| `TcpSteps.StartsNothing` | src/cluster/distributed_grouped_query_tcp_execution.cpp:142-160 | a slot with a client, or neither new nor past a backoff that ends, is left alone |
| `TcpSteps.StartsConnected` | src/cluster/distributed_grouped_query_tcp_execution.cpp:161-195 | a due slot gets its next attempt, a fresh client for it, and exactly one more started, active and, beyond the first, retried |
| `TcpSteps.StartsRefused` | src/cluster/distributed_grouped_query_tcp_execution.cpp:176-190 | a client refused as unavailable or by an input-output error costs the attempt, which then falls back or gives up; any other refusal ends the poll with its code and one attempt abandoned |
| `TcpSteps.DriveExactly` | src/cluster/distributed_grouped_query_tcp_execution.cpp:387-415 | hanging up, end of stream and a retryable client failure lose the attempt, each with its code and counter; any other failure ends the poll and changes nothing |
| `TcpSteps.ReadExactly` | src/cluster/distributed_grouped_query_tcp_execution.cpp:398-426 | a read goes to the client and into the record; only a client that has a complete stream counts as completed, and the sender then takes exactly that stream |
| `TcpPoll.StartAllAfter` | src/cluster/distributed_grouped_query_tcp_execution.cpp:142-195 | starting every due slot in order keeps execution, books and coupling, and if all went well leaves no sender ready |
| `TcpPoll.DriveAllAfter` | src/cluster/distributed_grouped_query_tcp_execution.cpp:387-426 | driving every slot in order keeps execution, books and coupling |
| `TcpPoll.StopIsValid` | src/cluster/distributed_grouped_query_tcp_execution.cpp:110-132 | ending a run abandons exactly the attempts in flight and leaves every other counter |
| `TcpPoll.GivenUpNeverFinishes` | src/cluster/distributed_grouped_query_tcp_execution.cpp:228-234 | once a sender gave up the coordinator has the failure, so a failed query never yields a result |
| `TcpPoll.PollKeepsValid` | src/cluster/distributed_grouped_query_tcp_execution.cpp:332-428 | every poll keeps the invariant and no counter falls; while it runs slots and senders are coupled, some slot flies or waits with a deadline, none gave up, and nothing is abandoned |
| `TcpDeadlines.CancelExactly` | src/cluster/distributed_grouped_query_tcp_execution.cpp:122-132 | cancelling ends a running owner, drops its clients, leaves the execution and every other counter, and does nothing otherwise |
| `TcpDeadlines.PollAtDeadline` | src/cluster/distributed_grouped_query_tcp_execution.cpp:346-350 | a poll at or past the deadline starts nothing and cancels |
| `TcpDeadlines.PollPastDeadline` | src/cluster/distributed_grouped_query_tcp_execution.cpp:382-386 | a poll that finds the deadline passed after its wait cancels before it drives anything |
| `TcpDeadlines.PollFailure` | src/cluster/distributed_grouped_query_tcp_execution.cpp:377-381 | a failed wait ends the run with an input-output error |
| `TcpDeadlines.PollCancelsExactly` | src/cluster/distributed_grouped_query_tcp_execution.cpp:332-428 | a poll cancels if and only if its deadline had passed at its start, or at the end of a wait that did not fail; an owner still running saw it ahead both times |
| `TcpDeadlines.LifeCancels` | src/cluster/distributed_grouped_query_tcp_execution.cpp:332-472 | over every life the deadline stays the same, and an owner is cancelled only by a cancel call or by a poll that saw that deadline pass |
| `TcpDeadlines.LifePastDeadline` | src/cluster/distributed_grouped_query_tcp_execution.cpp:332-428 | after any life, a poll past the deadline leaves no owner running |
| `TcpRuns.CompatibleIsPreorder` | src/cluster/distributed_grouped_query_tcp_execution.cpp:57-89 | rebinding compatibility is reflexive and transitive |
| `TcpRuns.CompatibleExactly` | src/cluster/distributed_grouped_query_tcp_execution.cpp:57-89 | two snapshots are compatible if and only if they are the same but for a later generation and, per dispatch, serving node, generation and proof |
| `TcpRuns.RebindExactly` | src/cluster/distributed_grouped_query_tcp_execution.cpp:437-472 | a rebinding is taken if and only if the run failed as unavailable, exhausted or by an input-output error, fewer rebindings than allowed were started, deadline and allowance are the same, the query is the same and the replacement can be created; a spent allowance is exhaustion, anything else an invalid argument |
| `TcpRuns.RebindKeepsAlive` | src/cluster/distributed_grouped_query_tcp_execution.cpp:437-472 | rebinding with any reachable execution: a refusal changes nothing, an acceptance restarts the same logical query with all counters; the owner is sound afterwards if and only if it was refused or no attempt was under way |
| `TcpRuns.CreatedIsHanded` | src/cluster/distributed_grouped_query_execution.cpp:23-58 | executions as creation makes them have no attempt under way |
| `TcpRuns.DrivenIsGiven` | src/cluster/distributed_grouped_query_execution.cpp:78-146 | whatever calls were made on an execution, it is still one that may be given to an owner |
| `TcpRuns.LifeKeepsAlive` | src/cluster/distributed_grouped_query_tcp_execution.cpp:332-472 | after any polls, cancellations and rebindings the invariant holds, the query is the same, no counter and no generation falls, completion and cancellation are final |
| `Stranded.StrandedForever` | src/cluster/distributed_grouped_query_tcp_execution.cpp:142-250 | a slot whose sender waits without a client is never started, driven or concluded by any polls, and the owner never completes |
| `Stranded.BegunByHandIsLost` | src/cluster/distributed_grouped_query_execution.cpp:78-85 | the input: any execution on which one attempt was begun before it was given to an owner loses that tablet |
| `Stranded.CoupledExactly` | src/cluster/distributed_grouped_query_tcp_execution.cpp:275-330 | in every state of every life the slots with a client are those whose sender waits, if and only if no attempt was under way at the hand-over |
| `TcpLiveness.PolledLifeCanMove` | src/cluster/distributed_grouped_query_tcp_execution.cpp:142-219 | if no poll looks at the clock within one maximal backoff of the end of time, an owner still running after a poll has a slot in flight or a retry that will come due |
| `AllOrNothing.CompletedLifeIsWhole` | src/cluster/distributed_grouped_query_tcp_execution.cpp:332-428 | if a life completes, every tablet contributed exactly one complete stream, offered once and in order, and unless it had succeeded before the hand-over that stream is exactly the parse of the bytes read over its last attempt's connection |
| `AllOrNothing.CompletedLifeIsRead` | src/cluster/distributed_grouped_query_tcp_execution.cpp:387-426 | if nothing had succeeded at any hand-over, every tablet of a completed life was read off the wire that way |
| `AllOrNothing.CompletedLifeConservesRows` | src/cluster/distributed_grouped_query_tcp_execution.cpp:221-250 | and its result counts, per key, exactly the rows of all retained streams and holds what their partials come to |
| `AllOrNothing.AttemptsAreAccountedFor` | src/cluster/distributed_grouped_query_tcp_execution.cpp:110-195 | after every life started = in flight + completed + failed + abandoned, active counts the clients, retries are the attempts beyond each first, no counter falls, and started is within (rebindings+1) * slots * 1024 |
| `AllOrNothing.CanonicalRows` | src/query/distributed_grouped_exchange.cpp:68-74 | canonical keys count the same rows and hold the same partials |
| `GroupedTcpExecution.Create` | src/cluster/distributed_grouped_query_tcp_execution.cpp:275-330 | an owner is created, around any execution, exactly for a sound configuration with a route to every target |
| `GroupedTcpExecution.CompatibleRebinding` | src/cluster/distributed_grouped_query_tcp_execution.cpp:73-89 | the loop decides compatibility |
| `GroupedTcpExecution.GroupedQueryTcpExecution.End` | src/cluster/distributed_grouped_query_tcp_execution.cpp:110-132 | failing or cancelling drops every client of a running owner and nothing of an ended one, and counts the clients dropped |
| `GroupedTcpExecution.GroupedQueryTcpExecution.StartDueAttempts` | src/cluster/distributed_grouped_query_tcp_execution.cpp:142-195 | the loop over slots starts exactly the specified attempts |
| `GroupedTcpExecution.GroupedQueryTcpExecution.Descriptors` | src/cluster/distributed_grouped_query_tcp_execution.cpp:360-375 | lists exactly the slots that hold a client, ascending |
| `GroupedTcpExecution.GroupedQueryTcpExecution.Read` | src/cluster/distributed_grouped_query_tcp_execution.cpp:400-426 | one read of a client is kept, judged with everything it read before, and settles its slot as specified |
| `GroupedTcpExecution.GroupedQueryTcpExecution.DriveReady` | src/cluster/distributed_grouped_query_tcp_execution.cpp:387-426 | driving the listed descriptors is driving every slot in order |
| `GroupedTcpExecution.GroupedQueryTcpExecution.PublishTerminal` | src/cluster/distributed_grouped_query_tcp_execution.cpp:221-250 | the scan publishes failure, completion or nothing as specified |
| `GroupedTcpExecution.GroupedQueryTcpExecution.Poll` | src/cluster/distributed_grouped_query_tcp_execution.cpp:332-428 | one poll of the object is one specified poll, with its report |
| `GroupedTcpExecution.GroupedQueryTcpExecution.CancelNow` | src/cluster/distributed_grouped_query_tcp_execution.cpp:430-435 | cancellation ends a running owner and reports the state |
| `GroupedTcpExecution.GroupedQueryTcpExecution.RebindTo` | src/cluster/distributed_grouped_query_tcp_execution.cpp:437-472 | the object rebinds, with any execution, exactly as specified |
| `PollWait.LeastIsMinimum` | src/cluster/distributed_grouped_query_tcp_execution.cpp:197-219 | the specified wait is the minimum of the limit and every bound |
| `PollWait.BoundedWait` | src/cluster/distributed_grouped_query_tcp_execution.cpp:197-219 | the float64 wait is that minimum over the deadline and every unsaturated backoff deadline |
| `PollWait.InlineWait` | src/cluster/distributed_mutable_vector_grouped_aggregate_query_tcp_execution.cpp:523-541 | the mutable wait is that minimum with saturated deadlines included |
| `PollWait.WaitsAgree` | src/cluster/distributed_mutable_vector_grouped_aggregate_query_tcp_execution.cpp:523-541 | the two agree if and only if no deadline is saturated, or the execution has a deadline, or some slot has an ordinary one, or the limit ends before the end of time |
| `PollWait.WaitsDiffer` | src/cluster/distributed_mutable_vector_grouped_aggregate_query_tcp_execution.cpp:523-541 | an instant and a saturated slot for which they differ |
| `PollWait.RetriesAgainExactly` | src/cluster/distributed_grouped_query_tcp_execution.cpp:152-160 | a slot that fell back can ever be started again if and only if its backoff ends before the end of time |
| `PollWait.LongestBackoffIsNever` | src/cluster/distributed_grouped_query_tcp_execution.cpp:152-160 | the longest backoff the limits allow is, from the first millisecond on, never retried |
| `EndToEnd.CompletedLifeHoldsWorkerResult` | src/cluster/distributed_grouped_query_transport.cpp:781-1009 | over every life that completes: if what a tablet's last connection read is some of what a server wrote, in any pieces, for a worker's result, then the worker succeeded and the coordinator holds exactly its messages, or its empty result, and its rows |
| `Reachable.SomeLifeCompletes` | src/cluster/distributed_grouped_query_tcp_execution.cpp:332-428 | a running owner over one tablet, as creation leaves it, completes in one poll that connects, reads the one response frame and closes the stream |
| `Reachable.SomeLifeIsRebound` | src/cluster/distributed_grouped_query_tcp_execution.cpp:437-472 | a life that fails, is rebound once with an allowance of one, and completes |
| `Reachable.NotReboundTwice` | src/cluster/distributed_grouped_query_tcp_execution.cpp:447-448 | with that allowance spent, the next rebinding is refused as exhausted |
| `MutableStreams.CheckBytes` | src/cluster/distributed_mutable_vector_grouped_aggregate_query_tls.cpp:407-413 | the byte limit is checked without overflow |
| `MutableStreams.ValidateResponseStream` | src/cluster/distributed_mutable_vector_grouped_aggregate_query_tls.cpp:394-469 | the TLS validator answers, on every bound vector, the specified code: authority, counts, bytes, then the first response that does not decode, fit or re-encode |
| `MutableStreams.ValidateMutableGroupedResponses` | src/cluster/distributed_mutable_query_control_tls.cpp:314-394 | the query-control copy answers the same code on every bound vector |
| `MutableStreams.ValidatedExactly` | src/cluster/distributed_mutable_vector_grouped_aggregate_query_tls.cpp:394-469 | that code is success exactly when the authority is sound, every response decodes and re-encodes, and the vector is admitted |
| `MutableStreams.ClientTracks` | src/cluster/distributed_mutable_vector_grouped_aggregate_query_tls.cpp:205-259 | after any frames the client holds an open beginning, an admitted vector, or has failed |
| `MutableStreams.IncrementalIsBatch` | src/cluster/distributed_mutable_vector_grouped_aggregate_query_tls.cpp:205-259 | with equal limits the client finishes at the last frame exactly on the vectors the batch validator accepts |
| `MutableStreams.UnequalLimits` | src/cluster/distributed_mutable_query_control_tls.cpp:314-394 | what a server under other limits admits, the client finishes on exactly when it is within its own limits |
| `MutableStreams.PiecesAreFrame` | src/cluster/distributed_mutable_vector_grouped_aggregate_query_tls.cpp:280-296 | charging a frame piece by piece as it is consumed comes to charging it at once |
| `MutableStreams.MutableClient.Take` | src/cluster/distributed_mutable_vector_grouped_aggregate_query_tls.cpp:261-310 | the object charges the bytes one reader call consumed, then checks the frame they finished |
| `MutableStreams.MutableClient.AcceptResponse` | src/cluster/distributed_mutable_vector_grouped_aggregate_query_tls.cpp:205-259 | the object checks one response as specified |
| `MutableStreams.SenderIsBatch` | src/cluster/distributed_mutable_vector_grouped_aggregate_query_transport.cpp:579-689 | the sender takes exactly the admitted vectors without hints whose positions name its query and tablet |
| `MutableExecution.NewIsLatched` | src/cluster/distributed_mutable_vector_grouped_aggregate_query_execution.cpp:102-160 | a new execution has no latch set and every sender ready |
| `MutableExecution.PublishFlags` | src/cluster/distributed_mutable_vector_grouped_aggregate_query_execution.cpp:226-280 | publishing flags a result with its whole stream merged, or a failure exactly when it answers an error |
| `MutableExecution.TakeKeepsLatched` | src/cluster/distributed_mutable_vector_grouped_aggregate_query_execution.cpp:172-361 | every call keeps: failure latched iff some slot delivered one, at most one does, ready, failed and transferred exclude each other |
| `MutableExecution.FinishMeansComplete` | src/cluster/distributed_mutable_vector_grouped_aggregate_query_execution.cpp:309-327 | finishing succeeds if and only if every tablet's stream was merged whole, nobody finished or transferred before and the coordinator agrees; otherwise nothing changes, with the code |
| `MutableExecution.TransferMeansComplete` | src/cluster/distributed_mutable_vector_grouped_aggregate_query_execution.cpp:329-361 | sources are transferred exactly when every result was delivered, and they are the merged streams |
| `MutableExecution.SuccessIsMerged` | src/cluster/distributed_mutable_vector_grouped_aggregate_query_execution.cpp:226-280 | at every point of every run, a succeeded sender without a latched failure has its whole stream merged |
| `MutableExecution.MutableQueryExecution.PublishTerminalState` | src/cluster/distributed_mutable_vector_grouped_aggregate_query_execution.cpp:226-280 | the frame loop merges up to the first refusal and latches it |
| `MutableExecution.MutableQueryExecution.FinishNow` | src/cluster/distributed_mutable_vector_grouped_aggregate_query_execution.cpp:309-327 | the object finishes as specified |
| `MutableExecution.MutableQueryExecution.TakeCompletedSources` | src/cluster/distributed_mutable_vector_grouped_aggregate_query_execution.cpp:329-361 | the two loops move every result out, or none |
| `MutableSteps.StartsNothing` | src/cluster/distributed_mutable_vector_grouped_aggregate_query_tcp_execution.cpp:245-262 | a slot with a client, or neither new nor past its backoff, is left alone |
| `MutableSteps.StartsLocally` | src/cluster/distributed_mutable_vector_grouped_aggregate_query_tcp_execution.cpp:263-283 | a local slot runs in place: started, retried, and completed or failed locally, exactly as its answer is a whole stream or not |
| `MutableSteps.StartsRemotely` | src/cluster/distributed_mutable_vector_grouped_aggregate_query_tcp_execution.cpp:284-321 | a remote slot gets a client, loses the attempt, or ends the poll, each with its counters |
| `MutableSteps.DriveCounts` | src/cluster/distributed_mutable_vector_grouped_aggregate_query_tcp_execution.cpp:550-586 | only a stream that arrived whole counts as completed; what else ends an attempt counts as failed or ends the poll |
| `MutableOwner.StartMoves` | src/cluster/distributed_mutable_vector_grouped_aggregate_query_tcp_execution.cpp:245-330 | starting a local or remote slot moves every counter exactly with its sender, and abandons one attempt exactly when a connection is refused for good |
| `MutableOwner.DriveMoves` | src/cluster/distributed_mutable_vector_grouped_aggregate_query_tcp_execution.cpp:550-586 | driving a remote slot does the same and abandons nothing |
| `MutableOwner.StoppedIsValid` | src/cluster/distributed_mutable_vector_grouped_aggregate_query_tcp_execution.cpp:210-235 | ending a run abandons exactly the attempts in flight |
| `MutableOwner.PublishIsValid` | src/cluster/distributed_mutable_vector_grouped_aggregate_query_tcp_execution.cpp:332-373 | publication completes only over a finished or transferred execution, with all counters unchanged |
| `MutableOwner.RebindIsValid` | src/cluster/distributed_mutable_vector_grouped_aggregate_query_tcp_execution.cpp:596-637 | a refused rebinding changes nothing; an accepted one keeps authority and tablets and carries all counters, local ones included |
| `MutableOwner.RebindExactly` | src/cluster/distributed_mutable_vector_grouped_aggregate_query_tcp_execution.cpp:596-637 | when a rebinding is taken, written out, and what is answered when it is not |
| `MutableOwner.StartedWithinBudget` | src/cluster/distributed_mutable_vector_grouped_aggregate_query_tcp_execution.cpp:245-330 | over all bindings at most 1024 attempts per slot and binding, however the owner ended |
| `MutableOwner.LifeConserves` | src/cluster/distributed_mutable_vector_grouped_aggregate_query_tcp_execution.cpp:245-637 | after every sequence of steps started = in flight + completed + failed + completed and failed locally + abandoned, no counter falls, and ended owners stay ended |
| `MutableOwner.LifeIsSound` | src/cluster/distributed_mutable_vector_grouped_aggregate_query_tcp_execution.cpp:245-637 | at the end of every life clients are the waiting remote slots, and completion means every tablet's whole result was merged |
| `MutableLives.PollIsLife` | src/cluster/distributed_mutable_vector_grouped_aggregate_query_tcp_execution.cpp:482-586 | every poll of a running owner is the life of its steps, so what holds of every life holds of every poll |
| `MutableLives.PollCancelsExactly` | src/cluster/distributed_mutable_vector_grouped_aggregate_query_tcp_execution.cpp:482-550 | a poll cancels if and only if its deadline had passed at its start, or at the end of a wait that did not fail; an owner still running saw it ahead both times |
| `MutableLives.CompletedLifeMergesAdmitted` | src/cluster/distributed_mutable_vector_grouped_aggregate_query_tcp_execution.cpp:482-586 | a completed life merged, for every tablet, one whole vector that the batch validators admit for it |
| `ServerSweep.EveryConnectionAccounted` | src/cluster/distributed_grouped_query_tcp_server.cpp:194-210 | every connection present at a poll survives, completed or failed |
| `ServerSweep.GroupedServer.Sweep` | src/cluster/distributed_grouped_query_tcp_server.cpp:194-210 | the descending erasing loop turns every connection once with its own entry and keeps the survivors in order |
| `ServerSweep.GroupedServer.AcceptReady` | src/cluster/distributed_grouped_query_tcp_server.cpp:71-117 | the accept loop admits and counts as specified, within the maximum, keeping accepted = completed + failed + active |
| `ServerSweep.GroupedServer.RemoveConnection` | src/cluster/distributed_grouped_query_tcp_server.cpp:62-69 | erases one connection and counts it |
| `ServerSweep.SwapPopKeepsRest` | src/cluster/distributed_mutable_query_control_tcp.cpp:64-66 | moving the last connection into the gap keeps everything before it and the rest as a multiset |
| `ServerSweep.EveryConnectionCounted` | src/cluster/distributed_mutable_query_control_tcp.cpp:47-68 | every connection of a sweep survives or is in exactly one counter |
| `ServerSweep.ControlServer.RemoveConnection` | src/cluster/distributed_mutable_query_control_tcp.cpp:47-68 | removes by swap and pop and raises the one counter of its protocol or of failures, saturating |
| `ServerSweep.ControlServer.Sweep` | src/cluster/distributed_mutable_query_control_tcp.cpp:200-216 | leaves the same connections as the erasing sweep in some order, raises each counter by the connections that ended in it, and keeps accepted = completed + failed + active until saturation |
| `ServerSweep.ControlServer.AcceptReady` | src/cluster/distributed_mutable_query_control_tcp.cpp:74-123 | the accept loop admits, rejects and counts as specified, saturating, within the maximum |
| `ServerSweep.AdmitStaysWithin` | src/cluster/distributed_grouped_query_tcp_server.cpp:71-117 | an accept loop only appends and never passes the maximum |
| `ServerSweep.AdmitExactly` | src/cluster/distributed_grouped_query_tcp_server.cpp:71-117 | the first usable arrivals that fit are taken in order, every other one met is rejected, and an error is counted exactly when it ended the loop |

## Left out

- TLS handshakes, certificates, peer authentication, real sockets and `poll(2)`: progress and failures are inputs, authorisation is a boolean.
- The CRC-32C computation (section 12.1 of RFC 3720): every result holds for any checksum function.
- The nested fragment-dispatch codec: taken as an exact pair, with only the fields that routing, correlation and rebinding look at.
- Allocation failures and status texts: a failure is its code, and containers do not run out.
- Endpoint rotation, route tables and limits that only creation checks: one boolean and the set of routed nodes.
- GroupedTcpExecution.GroupedQueryTcpExecution.Read: the owner's client is the list of its reads, judged as a whole each time; `WirePipe.ReadEach` shows that the incremental client object comes to the same.
- The connecting, handshaking and request-writing phases of a client: until it reads, a client makes progress or breaks.
- The float64 coordinator is modelled on values, not as an object updated in place.
- The request encoder is modelled on values; the response encoder also as the buffer-filling loop it is.
- AllOrNothing.CompletedLifeConservesRows: speaks of the groups before they are listed; `ResultOrder` states the listing.
- ResultOrder.Present: the standard library's sort is an insertion into place; only its outcome is the program's.
- Moments.MergeDescribesBoth: rounding is not modelled; over the machine's floats the same formulas are folded, but nothing is said about their error.
- MutableOwner.LifeConserves: the mutable owner is modelled on values, its clients as booleans; what a rebinding compares beyond deadline, publication and tablets is one value, and finalization and projection are one answer.
- MutableLives.CompletedLifeMergesAdmitted: a client's vector arrives as one judged reply; `MutableStreams` states how it was read.
- MutableStreams.SenderIsBatch: which refusal code wins when a vector breaks several rules is not stated, and re-encoding of accepted frames is not modelled.
- MutableStreams.ValidateResponseStream: decoding and rewriting of a nested payload are one answer each, and so is the check of the grouped authority.
- MutableExecution.TakeKeepsLatched: decoding, tablet check and merge of a frame are one answer; a local run is a begin followed by a result or a failure.
- MutableExecution.MutableQueryExecution.PublishTerminalState: decoding, tablet check and merge of a frame are one answer.
- The subtraction of two instants in the wait computations is on integers; overflow for clocks far before the epoch is not modelled.
- The shuffle execution and its source worker: they move completed sources between nodes and take no part in a grouped query's own result.
