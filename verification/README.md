# Message streaming broker: a Dafny model

This project models the core of the message streaming application and proves what
it guarantees: the TCP broker in its two delivery modes, the length-prefixed wire
format below it, the CSV producer that feeds it, and the paginated GPU list of the
metrics service. `dafny verify dfyconfig.toml` checks everything.

## How the model is organised

- `Framing` gives the wire format as functions on byte sequences; `Streams` has
  `WriteFrame` and `ReadFrame` as methods over arrays and connections, proved
  against those functions. `Roles` is the line that opens every connection.
- `MemoryQueue` gives the bounded queue as functions on values. `QueueBroker` uses
  them in an interleaved step machine for queue mode, `QueueTheorems` states what
  every run keeps, and `QueueObjects` has the class and the handlers on the heap,
  proved against the same functions.
- `BroadcastBroker` and `BroadcastTheorems` do the same for broadcast mode;
  `BroadcastDelivery` says which messages reach which consumers there.
  `BroadcastObjects` has the registry and its handlers on the heap, with contracts of
  their own for a call that runs alone: the fresh copies, the sharing of buffers and
  the order of the sends, which the step machine abstracts from.
- `Endpoints` holds what both machines share: what a producer handler has read and
  what a consumer handler has written. `Runs` is the fold of any step function over a
  sequence of steps.
- `Labels`, `Rows` and `CsvStream` are the producer, `Pipeline` joins it to the broker;
  `Pagination` is the GPU list.

A state machine here is a total function `Apply(state, step)`; a run is any sequence
of steps, with no assumption on scheduling. Everything that holds a lock, every
queue method, every frame read and every frame write is one step; a broadcast is one
snapshot step in an arbitrary map order followed by one step per send. A panic (a
send on a closed channel, a second close) is a fault after which nothing happens.
A connection is the finite byte sequence its peer will ever send, then end of file.
A write may accept any number of bytes; as `io.Writer` demands, success means all of
them, while a failure may come after any number, all of them included. On the heap a
connection breaks after some number of bytes, or never.

## Where the code and its documentation differ

The model follows the code; the lemmas named here say what it really does.

- `internal/broker/interfaces.go:14` promises that a queued message goes to exactly
  one consumer. It goes to at most one (`QueueTheorems.AtMostOnce`), and it can still
  reach one exactly when Close did not discard it and no write of it failed short of
  the whole frame (`QueueTheorems.DeliverableIff`). `QueueTheorems.LosingRun` and
  `QueueTheorems.DiscardingRun` are runs that lose any given message.
- `internal/broker/interfaces.go:12` promises that every consumer receives the same
  message. What they receive is the same message, but not everyone receives it: every
  consumer of a broadcast's snapshot can get it exactly when every channel had room
  when its turn came and no write to any of the consumers failed before it
  (`BroadcastDelivery.BroadcastIsReceivedIff`). A full channel ends the whole broadcast,
  so channels visited after it miss the message too (`BroadcastTheorems.StarvingRun`).
  A consumer whose write fails loses all its channel still holds, room or not
  (`BroadcastDelivery.ReceivableIff`, `BroadcastDelivery.StrandingRun`).
- A send panics exactly when its channel was unregistered or closed after the
  broadcast's snapshot (`BroadcastTheorems.SendPanicsIffClosedBetween`);
  `BroadcastTheorems.PanickingRun` is a nine-step run to such a panic.
- `TransformRow` says that it replaces the timestamp and parses the labels. It does so
  exactly in a column whose name is empty, whatever the indices
  (`Rows.TransformRowRewritesIff`).
- A page number far past the end can overflow the offset. With page 2^32 + 1 and limit
  2^32 the first page comes back (`Pagination.OverflowReturnsFirstPage`); with page
  2^62 + 1 and limit 2 the slice expression panics (`Pagination.OverflowCrashes`).
  `Pagination.PageAgreement` says exactly when the 64-bit result is right and
  `Pagination.CrashesIff` exactly when it panics.
- A producer may send a message over 1 MiB, counts it as sent, and the broker then
  stops reading: neither it nor any later message arrives
  (`Framing.DecodeFramesOfAny`, `CsvStream.BrokerReadsRows`).
- A failing write can have accepted its whole frame, in particular an empty body's.
  Then the peer decodes a message the broker counts as lost
  (`Framing.DecodeAfterFailedWrite`) and the producer's row count is one short
  (`CsvStream.CountMatchesWire`).

## Model

| member | source | states |
|---|---|---|
| Framing.FrameArithmetic | internal/protocol/frame.go:9-31 | a body survives a write and a read exactly when it has at most 1048576 bytes; longer ones below 2^32 are refused, and from 2^32 the wrapped length is refused or yields a shorter body |
| Framing.HeaderBytes | internal/protocol/frame.go:12-17 | the header is the length modulo 2^32 in four bytes, most significant first |
| Framing.DecodeFrames | internal/protocol/frame.go:12-39 | a read loop over the frames of any list of bodies within the bound returns that list and then a clean end of file |
| Framing.DecodeSound | internal/protocol/frame.go:23-39 | on every byte sequence, the bodies a read loop returns re-frame to exactly the prefix it consumed, and the next read fails with the reported error |
| Framing.Truncation | internal/protocol/frame.go:23-39 | cutting a stream of frames at any byte yields exactly the wholly contained bodies, then an error that is a clean EOF exactly on a frame boundary or just after a header |
| Framing.WholeFramesSpec | internal/protocol/frame.go:12-39 | the number of wholly contained frames is the largest number of leading frames that fit in the cut |
| Framing.DecodeAfterFailedWrite | internal/protocol/frame.go:12-20 | wherever a write fails, the peer decodes exactly the messages written before it, unless the failing write accepted its whole frame |
| Framing.DecodeFramesOfAny | internal/protocol/frame.go:23-39 | over the frames of bodies of any size a read loop returns exactly those before the first one over the bound and then refuses, if and only if that one's length does not wrap to something within the bound |
| Framing.TruncationOfAny | internal/protocol/frame.go:23-39 | cut at any byte, such a stream yields the wholly contained bodies up to the first one over the bound |
| Streams.WriteFrame | internal/protocol/frame.go:12-20 | what reaches the wire is a prefix of the frame, all of it on success, wherever the header or the body write fails; it fails only where the connection breaks |
| Streams.ReadFrame | internal/protocol/frame.go:23-39 | body, unread rest and error are those of the specification, and the result aliases the caller's buffer exactly when the body fits in it |
| Roles.TrimLineLoop | internal/broker/broker.go:157-162 | the result is the longest prefix that does not end in a line ending |
| Roles.ServedAsProducer | internal/broker/broker.go:49-75 | a connection is served as a producer exactly when its bytes are PRODUCER, carriage returns, a newline and the rest |
| Roles.ServedAsConsumer | internal/broker/broker.go:49-75 | a connection is served as a consumer exactly when its bytes are CONSUMER, carriage returns, a newline and the rest |
| Roles.RoleLines | internal/broker/broker.go:49-75 | the ASCII words PRODUCER and CONSUMER with any number of carriage returns and a newline open the two roles |
| Endpoints.ReadNextInv | internal/broker/broker.go:82-89 | what a producer handler has read stays a prefix of what its peer framed |
| Endpoints.WrittenInv | internal/broker/broker.go:130-135 | after every write, successful or not, the wire is the frames of the delivered messages and a part of at most one more |
| Endpoints.WireDecodes | internal/broker/broker.go:130-135 | whatever a consumer handler did, its peer decodes exactly the messages whose frames are complete on the wire |
| QueueBroker.RunInv | internal/broker/broker.go:78-154 | every interleaving keeps the invariant: FIFO order, who dequeued what, wires, origins |
| QueueTheorems.TakenBySpec | internal/broker/memory_queue.go:43-57 | the messages a consumer dequeued are exactly those whose dequeue went to it, in enqueue order, each once |
| QueueTheorems.Conservation | internal/broker/memory_queue.go:27-76 | in every reachable state each accepted message is at exactly one place (delivered to one consumer, in flight, lost, pending, discarded), and nothing else is anywhere |
| QueueTheorems.PendingIsSuffix | internal/broker/memory_queue.go:27-76 | for every configured size, the size in use is that size or 10000, what is pending is the tail of the enqueue order and never exceeds it; after Close that tail is what was discarded |
| QueueTheorems.ConsumerSeesSubsequence | internal/broker/broker.go:139-154 | in every run the bytes written to a consumer decode to a subsequence of the global enqueue order |
| QueueTheorems.AtMostOnce | internal/broker/broker.go:139-154 | no accepted message is received by two consumers, nor twice by one |
| QueueTheorems.EndToEnd | internal/broker/broker.go:49-105 | what any consumer receives from a peer that sent a role line and the frames of some bodies, up to any byte, is a subsequence of the bodies wholly sent, up to the first one over the bound; of all bodies when all fit and all was sent |
| QueueTheorems.RunGrows | internal/broker/broker.go:78-154 | enqueue order, dequeue order, deliveries, wires and inputs only ever grow |
| QueueTheorems.LostForever | internal/broker/broker.go:149-152 | a message whose write failed short of its frame reaches no consumer in any continuation |
| QueueTheorems.CloseIsFinal | internal/broker/memory_queue.go:70-76 | after Close nothing is accepted or dequeued in any continuation, and what was pending stays discarded |
| QueueTheorems.DrainDelivers | internal/broker/broker.go:139-154 | from any state with an open queue an idle consumer whose writes succeed delivers everything pending, in order, as frames on its connection |
| QueueTheorems.FillAccepts | internal/broker/broker.go:78-105 | left alone, a producer has every frame it has left read, and the queue takes in the first of them, in order, as many as it has room for; a refusal loses that message and nothing else |
| QueueTheorems.EmptyQueueEndsConsumer | internal/broker/broker.go:139-147 | on a queue that is closed or momentarily empty a consumer handler returns, and in no continuation is anything written to it again |
| QueueTheorems.FailedWriteEndsConsumer | internal/broker/broker.go:149-152 | a failed write, after however many bytes, is the last thing that happens on a consumer connection |
| QueueTheorems.ReadErrorEndsProducer | internal/broker/broker.go:82-89 | a frame that cannot be read ends a producer handler for good |
| QueueTheorems.FirstLineDecides | internal/broker/broker.go:49-75 | once the first line is read, a connection is a producer, a consumer or dropped exactly as that line says, in every continuation |
| QueueTheorems.DeliverableIff | internal/broker/broker.go:139-154 | in every state a run can be in, some continuation brings an accepted message to a consumer exactly when Close did not discard it and no write of it failed short of its frame |
| QueueTheorems.LosingRun | internal/broker/broker.go:149-152 | for every message and every byte count short of its frame there is a run that accepts it, loses it in a failed write, and has no continuation that delivers it |
| QueueTheorems.DiscardingRun | internal/broker/memory_queue.go:70-76 | for every message there is a run that accepts it, closes the queue over it, and has no continuation that delivers it |
| QueueObjects.MemoryMessageQueue.Enqueue | internal/broker/memory_queue.go:27-40 | the queue grows by a fresh copy of the message exactly when it is open and not full |
| QueueObjects.MemoryMessageQueue.Dequeue | internal/broker/memory_queue.go:43-57 | hands out the oldest message, or nothing when closed or empty |
| QueueObjects.MemoryMessageQueue.IsFull | internal/broker/memory_queue.go:60-62 | true exactly when the pending messages number the size |
| QueueObjects.MemoryMessageQueue.Len | internal/broker/memory_queue.go:65-67 | the number of pending messages |
| QueueObjects.MemoryMessageQueue.Close | internal/broker/memory_queue.go:70-76 | drops what is pending and refuses from then on |
| QueueObjects.HandleProducer | internal/broker/broker.go:78-105 | though all frames may share one buffer, the queue ends up holding exactly the framed bodies, in order, as far as they are accepted |
| QueueObjects.EnqueueAllKeepsFirst | internal/broker/memory_queue.go:27-40 | of a burst of messages a queue keeps the first ones that fit |
| QueueObjects.HandleConsumer | internal/broker/broker.go:139-154 | the pending messages split into delivered, at most one lost, and left; nothing is left unless a write failed, which happens only where the connection breaks; the wire holds the delivered frames and the accepted part of the lost one |
| BroadcastBroker.RunInv | internal/broker/consumer_registry.go:28-87 | every interleaving keeps the invariant: registry and channels, histories, consumers, origins |
| BroadcastTheorems.Lifecycle | internal/broker/consumer_registry.go:28-87 | in every run a once-registered channel is open exactly while it is in the map, is closed at most once, and closing never panics |
| BroadcastTheorems.ClosedIffClosedDuring | internal/broker/consumer_registry.go:39-48 | over any stretch of a run an open channel ends up closed exactly when an Unregister or a Close of it happened |
| BroadcastTheorems.SendPanicsIffClosedBetween | internal/broker/consumer_registry.go:51-69 | a broadcast's send panics exactly when an Unregister or a Close of its target fell between that broadcast's snapshot and the send |
| BroadcastTheorems.CloseBeforeSendPanics | internal/broker/consumer_registry.go:51-87 | in every state, a Close of the registry between a snapshot and its first send makes that send panic |
| BroadcastTheorems.PanickingRun | internal/broker/consumer_registry.go:51-87 | for every message there is a nine-step run from the start to a send that panics |
| BroadcastTheorems.BroadcastOrder | internal/broker/consumer_registry.go:51-69 | in every run the messages of such a peer in a channel's history are a subsequence of the bodies that arrive, each at most once, whatever the map order |
| BroadcastTheorems.ConsumerSeesPrefix | internal/broker/broker.go:120-136 | the bytes written to a consumer decode to a prefix of what its channel ever accepted |
| BroadcastTheorems.EndToEnd | internal/broker/broker.go:49-136 | what any consumer receives from such a peer is a subsequence of the bodies that arrive |
| BroadcastTheorems.DrainedWhenLeft | internal/broker/broker.go:120-136 | a handler that left its loop without a failed write has written exactly what its channel ever accepted |
| BroadcastTheorems.LoopNeverStuck | internal/broker/broker.go:130-135 | on a closed channel the range loop always has a next step |
| BroadcastTheorems.DrainsOnShutdown | internal/broker/consumer_registry.go:79-87 | after a registry Close, in every continuation in which a consumer's writes succeed, its handler has ended after a known number of its own steps, having written exactly what its channel ever accepted |
| BroadcastTheorems.LoopCanFinish | internal/broker/broker.go:130-135 | from any state with a closed channel the handler's own steps, writes succeeding, make up that number |
| BroadcastTheorems.HandlerCanFinish | internal/broker/broker.go:120-136 | after a registry Close, however the run went on without a panic, the handler alone can finish, having written exactly what its channel ever accepted |
| BroadcastTheorems.QuietMeansDrained | internal/broker/broker.go:130-135 | no continuation stops short: when the handler has no loop step left to take, it has written exactly what its channel ever accepted |
| BroadcastTheorems.ShutdownRun | internal/broker/broker.go:120-136 | a run with a consumer in its loop and a continuation that meets what these results ask for |
| BroadcastTheorems.FanOut | internal/broker/consumer_registry.go:51-69 | an undisturbed broadcast serves every channel exactly when all have room, else exactly those before the first full one, and changes nothing else |
| BroadcastTheorems.FullChannelCutsOffTheRest | internal/broker/consumer_registry.go:63-65 | channels visited after a full one miss the message even when they have room |
| BroadcastTheorems.StarvingRun | internal/broker/consumer_registry.go:63-65 | there is a run in which a registered consumer with an empty channel misses a message because another one's channel is full |
| BroadcastTheorems.BroadcastReachesAll | internal/broker/consumer_registry.go:51-69 | undisturbed and with room in all registered channels, a producer's next frame reaches those, exactly those, nobody when nobody is registered, and the producer is ready for its next frame |
| BroadcastDelivery.ReceivableIff | internal/broker/broker.go:120-136 | in every state a run can be in without a panic, a consumer can still receive a message its channel accepted exactly when none of its writes has failed or it has received it already |
| BroadcastDelivery.StrandingRun | internal/broker/broker.go:130-135 | for all two messages and every byte after which the write of the first fails, there is a run in which the channel accepted the second and no continuation delivers it |
| BroadcastDelivery.BroadcastSpreads | internal/broker/consumer_registry.go:51-69 | over every interleaving after a snapshot, the channels holding its broadcast are exactly the first few of its visiting order, each holds the same message once, and the rest are what is still to be sent |
| BroadcastDelivery.ObtainableIff | internal/broker/broker.go:120-136 | the consumer of a channel can get a finished broadcast exactly when its channel was reached and none of its writes failed before it |
| BroadcastDelivery.BroadcastIsReceivedIff | internal/broker/interfaces.go:12 | in every run, all consumers of a snapshot can get its broadcast exactly when it reached every channel and no write to any of them failed before it |
| BroadcastDelivery.LateConsumerIsServed | internal/broker/consumer_registry.go:28-36 | a consumer that registers after a Close of the registry gets the next broadcast, and no closed channel does |
| BroadcastDelivery.AnyOrder | internal/broker/consumer_registry.go:52-57 | a snapshot may list the registered channels in any order: the admissible orders are exactly the permutations of what the map holds |
| BroadcastDelivery.UnregisterCompletes | internal/broker/broker.go:126-127 | the deferred Unregister always completes, leaves its channel closed and out of the map, also after a registry Close, touches no other channel, and is the last thing its handler does |
| BroadcastDelivery.ReadErrorEndsProducer | internal/broker/broker.go:82-89 | a frame that cannot be read ends a producer handler for good |
| BroadcastDelivery.FirstLineDecides | internal/broker/broker.go:49-75 | once the first line is read, a connection is a producer, a consumer or dropped exactly as that line says, in every continuation |
| BroadcastObjects.BroadcastRegistry.RegisterConsumer | internal/broker/consumer_registry.go:28-36 | adds any channel under its fresh id; an open channel not yet registered keeps the registry valid |
| BroadcastObjects.BroadcastRegistry.UnregisterConsumer | internal/broker/consumer_registry.go:39-48 | closes and removes that consumer's channel and no other; an unknown id changes nothing |
| BroadcastObjects.BroadcastRegistry.BroadcastMessage | internal/broker/consumer_registry.go:51-69 | each channel reached gets a fresh slice of its own with the message's bytes, the slices of one broadcast are pairwise distinct, all other channels are unchanged |
| BroadcastObjects.BroadcastRegistry.Close | internal/broker/consumer_registry.go:79-87 | closes every registered channel and empties the map |
| BroadcastObjects.HandleProducer | internal/broker/broker.go:78-105 | though all frames may share one buffer, every channel keeps its old messages untouched and gains a subsequence of the framed bodies, and all of them when every channel had room for all |
| BroadcastObjects.HandleConsumer | internal/broker/broker.go:120-136 | the range loop delivers everything the channel held, unless a write fails, which happens only where the connection breaks, and then exactly what preceded the failure; it goes on waiting exactly on an open channel |
| Labels.SplitSpec | internal/producer/transformers.go:84-114 | the parts are the texts between commas that are unescaped and preceded by an even number of unescaped quotes, on every text |
| Labels.RejoinRestores | internal/producer/transformers.go:84-114 | rejoining the parts with commas restores the text up to one dropped empty final part |
| Labels.SplitLoop | internal/producer/transformers.go:84-114 | the scanning loop computes that split |
| Labels.ParseLabels | internal/producer/transformers.go:77-133 | the whole method reads the parts in order, later keys overriding earlier ones |
| Labels.ParseAppend | internal/producer/transformers.go:84-130 | parsing balanced text, a comma and more text gives the first result overridden by the second, for empty texts and trailing commas too |
| Labels.ParseAppendIff | internal/producer/transformers.go:84-130 | this holds for all further texts exactly when the first text is balanced; after any other text a continuation is given that breaks it |
| Labels.ParsePrint | internal/producer/transformers.go:77-133 | parsing key="value" items joined by commas, with blanks around keys and values, gives back the last value of each key, verbatim |
| Labels.LastWinsSpec | internal/producer/transformers.go:117-130 | the last item with a key gives its value, and there are no other keys |
| Labels.ExtractQuoted | internal/producer/transformers.go:117-130 | a part gives the key and value without the spaces, tabs and line ends around them, the value without its quotes |
| Labels.ExtractBare | internal/producer/transformers.go:117-130 | a value that is not quoted on both sides is kept as it is |
| Labels.ExtractNoneIff | internal/producer/transformers.go:118-122 | exactly the parts without an equals sign contribute nothing |
| Labels.EscapedQuote | internal/producer/transformers.go:89-104 | a quote after a backslash does not end a value, and a comma after it does not separate |
| Labels.SpacesAre | internal/producer/transformers.go:118-124 | the characters trimmed are exactly the white space of Unicode |
| Rows.BuildRow | internal/producer/csv_reader.go:97-105 | the row map holds each column's field, empty when the record is short |
| Rows.TransformRowLoop | internal/producer/transformers.go:36-64 | whatever the map order, the payload is the specified one |
| Rows.RowOfSpec | internal/producer/csv_reader.go:97-105 | for every header, the row map holds under a name the field of the last column with that name |
| Rows.TransformRowRewritesIff | internal/producer/transformers.go:36-73 | for every header, a kept column becomes the current time exactly when its name is empty and there is a timestamp index, parsed labels exactly when its name is empty and there is only a labels index, and stays as it was otherwise |
| Rows.TransformRowDrops | internal/producer/transformers.go:36-64 | exactly the columns with an empty field, timestamp excepted, are left out, and no column is invented |
| Rows.TransformRowHolds | internal/producer/transformers.go:36-73 | for every header, what the record's field becomes under its column's name: the field itself, nothing when empty (timestamp aside), something else only under an empty name |
| Rows.TransformRowWithRaw | internal/producer/transformers.go:137-160 | the payload built by position is the specified one |
| Rows.TransformRawSpec | internal/producer/transformers.go:137-160 | for every header, under each name stands the rewritten, parsed or plain value of the last column of that name that contributes one, and nothing else |
| Rows.TransformRawHolds | internal/producer/transformers.go:137-160 | for every header, the time stands at the timestamp index, parsed labels at the labels index, the field itself elsewhere, and nothing for an empty field |
| Rows.TransformsAgree | internal/producer/transformers.go:36-160 | for every header, the exact condition under which both transforms agree on a column other than the two indexed ones; with distinct non-empty names, that it is not an empty timestamp column |
| CsvStream.MetricsCSVReader.GetRawRow | internal/producer/csv_reader.go:111-131 | yields the records in order and counts them; the first end of file or error is sticky |
| CsvStream.MetricsCSVReader.GetNextRow | internal/producer/csv_reader.go:77-108 | the same, with the fields under their column names |
| CsvStream.EncodeSpec | internal/producer/producer.go:63-80 | what is sent of a record is the wrapped, marshalled payload holding exactly its non-empty fields under their names; a payload that cannot be marshalled is skipped, a message that cannot ends the call |
| CsvStream.StreamRow | internal/producer/producer.go:64-79 | one record is sent, skipped or fails exactly as its encoding and the connection decide, with exactly its bytes on the wire; a write fails only where the connection breaks |
| CsvStream.StreamCSVMetrics | internal/producer/producer.go:40-88 | terminates on every finite file and on each exit accounts for every record: the count, the frames on the wire in record order, and why it ended; a write fails only where the connection breaks |
| CsvStream.CountMatchesWire | internal/producer/producer.go:52-86 | the returned count is the number of complete frames on the wire on every exit but a failing write that accepted its whole frame |
| CsvStream.BrokerReadsRows | internal/producer/producer.go:40-88 | after the role line the broker reads, in record order, the bodies of the completely written records up to the first one over the bound; it reads as many as were counted exactly when no counted body is over the bound and no failing write accepted a whole frame within it |
| Pipeline.RowsToQueueConsumers | internal/producer/producer.go:40-88 | in every queue-mode run, what a consumer receives from a producer that streamed a file is a subsequence of the rows wholly sent, up to the first one over the bound |
| Pipeline.RowsToBroadcastConsumers | internal/producer/producer.go:40-88 | the same in broadcast mode |
| Pagination.LeSpec | internal/metrics/implementations.go:19-25 | strings compare lexicographically: a prefix first, else by the first character in which they differ |
| Pagination.SortSpec | internal/metrics/implementations.go:19-25 | the result is a permutation of the input that climbs in ascending order and falls in descending order |
| Pagination.SortIsDetermined | internal/metrics/implementations.go:19-25 | there is only one sorted permutation, so the choice of algorithm does not matter |
| Pagination.DescendingIsReverse | internal/metrics/implementations.go:19-25 | descending output is the reverse of ascending output |
| Pagination.SortStrings | internal/metrics/implementations.go:19-25 | reorders the slice in place into that permutation, climbing or falling as asked |
| Pagination.OffsetWraps | internal/metrics/implementations.go:113-115 | the offset is the mathematical one modulo 2^64, within the 64-bit range |
| Pagination.PageAgreement | internal/metrics/implementations.go:113-127 | the 64-bit page equals the mathematical one exactly when the offset does not overflow or overflows past the end |
| Pagination.OverflowReturnsFirstPage | internal/metrics/implementations.go:113-127 | a page far past the end whose offset wraps to zero returns the first page |
| Pagination.PagesPartition | internal/metrics/service.go:24-44 | pages one to the page count put together are the whole sorted list |
| Pagination.PagesAreComputed | internal/metrics/service.go:24-44 | the 64-bit code returns exactly those pages |
| Pagination.LaterPagesAreEmpty | internal/metrics/service.go:24-44 | every later page is empty in unbounded arithmetic, and in the 64-bit code exactly when its offset does not overflow or overflows past the end |
| Pagination.CrashesIff | internal/metrics/implementations.go:113-127 | the 64-bit page panics exactly when the offset wraps below zero, or into the list so far that the end of the page wraps |
| Pagination.OverflowCrashes | internal/metrics/service.go:24-44 | with page 2^62 + 1 and limit 2 listing panics on every list |
| Pagination.ListGPUs | internal/metrics/service.go:24-44 | validation errors in order, store failure, and otherwise the page of the sorted list with the total; the store's slice is left sorted |

## Left out

- Interleaving inside one queue method: the unsynchronised `queue` field can be read and written by two goroutines at once; each method is taken as one atomic step.
- Process and socket plumbing under `cmd/`, listeners, signals, sleeps and deadlines.
- MongoDB storage and its adapter: sorting and paging of telemetry happen in the database driver.
- HTTP routing, middleware, authentication, query parsing and JSON output of the metrics service.
- JSON and RFC 3339 formatting, UUIDs and the clock: marshalling is a partial function of the row number, ids are a fresh choice, times are parameters.
- `encoding/csv` tokenisation: a file is a header and a finite sequence of records and read errors.
- Column lookup by name (`FindColumnIndex` folds case by Unicode rules): column indices are parameters of the transforms.
- Invalid UTF-8 in labels: the text is a sequence of characters.
- Environment parsing: a consumer channel's capacity is any positive number.
- Logging and mocks.
- BroadcastObjects.HandleConsumer: what arrives on an open channel while the handler waits is part of the step machine, not of this method.
- Pagination.SortStrings: the algorithm of Go's sort package is not modelled, only its result, which is unique.
