# Verified model of the DenIM deniable-payload transport

DenIM hides secret payloads inside ordinary traffic. A client cuts queued payloads into
chunks and attaches them to regular messages, filling a fixed share of every message to
the byte. The server buffers the chunks of each sender, reassembles payloads, routes them
to every device of the addressed account, and cuts them again out of a byte queue kept in
Redis. The receiving client reassembles once more. Beside this, ordinary messages wait in
the same Redis structures until a persister moves old queues to the database.

The model covers that transport from the encoders up to whole runs:

| file | subject |
|---|---|
| `Bincode`, `Chunks` | the serialized form of chunk lists, chunk kinds, the descending sort |
| `Cutting`, `Streams`, `Labels`, `Sizing` | the two fill loops as functions, streams over many carriers, their labels, progress and piece counts |
| `Assembly`, `Relay` | the two reassembly loops, the server's paged buffer and the client's table |
| `Text`, `Entries`, `QueueKeys`, `SortedSet` | decimal, base64 and entry texts, queue keys, Redis sorted sets |
| `Redis` | the queue operations, command by command, and a class holding all queues |
| `DeniablePayloads`, `TwoHop`, `Delivery`, `Losses`, `KeyAnswers` | routing, the two-hop protocol as a state machine, results over whole runs, runs with requests that fail, answers to key requests |
| `DeviceStore`, `Chunker`, `Client` | the client's tables and methods |
| `DenimManager`, `Server` | the server's buffers and request handling |
| `Transport` | client and server methods together, refining the state machine's events and whole runs |
| `Indexes`, `MessageCache`, `MessagePersister` | the age-ordered index, ordinary message queues, the persister |
| `DueQueues`, `AgeBounds` | what a whole run of the persister does, as a function of the index and the accounts, and the ages it leaves |

How the pieces fit. Every imperative method is proved against a function or a step of the
state machine, and the results are proved about those. The client's loop over its table
computes `ClientFill`; the server's loop over Redis computes `ServerFill`; both are
characterised by a description without a loop (`Greedy`) and proved to be the same cutter.
The Redis queue, a sorted set with two hashes and a counter, is proved to represent a plain
list of items, so a byte queue as its reader sees it is a list of pending payloads. The
methods of client and server together are proved to perform exactly the submit, request and
delivery steps of the two-hop state machine on the client's tables and the Redis contents, and
a method that carries out any list of events to go through the machine's states
(`Transport`). On that machine, as long as the page suffices for every flush, delivery is
first-in-first-out over every run without a failed request, and over any other run what
arrives is, in order, a part of what was sent: a failed request loses the payloads of its
flush as a whole and for good.

Conventions. A payload on the wire is a byte string; its own serialization is a parameter
(`Codec`) of which only the round trip is assumed. `Pending(bytes, order)` is a payload not
yet fully sent with the label of its next piece. A carrier's budget is a natural number of at
least 8, because the program subtracts the size of an empty list from it unchecked. One
request and one delivery are atomic steps over a reliable link. A payload counts as received
when the client's reassembly has returned it. SQLite selects without an order are read in
rowid order. Texts are compared by code points, which is the order of their UTF-8 bytes. Time
is a parameter of the operations that read it.

Facts about the program that the proofs settle:

- A flush reads one page of 100 chunks and puts unfinished ones behind what it left unread.
  `FlushFaithfulExactly` gives the exact condition under which this is harmless, and
  `PageLimitBreaksReassembly` a payload of 101 bytes that arrives torn apart. `Sized` is a
  condition on budgets and payload sizes under which it never happens.
- Envelopes show the sender's device id modulo 256. First-in-first-out delivery per sender
  holds exactly when no other device shows the same account and byte (`FifoExactly`), so
  always while device ids stay below 256 (`SmallIdsFifo`).
- A key response goes to every device of the account that asked, whichever of them it was
  (`KeyAnswersInOrder`).
- A flush that fails, on a chunk of unknown kind or a payload that cannot be deserialized,
  has already removed its page; a client that fails likewise has emptied its table.
- A request that fails after its flush, because a message is for an unknown account or not
  base64, or because the keys asked for are not there, loses everything the flush read. A
  step fails exactly then (`StepSucceeds`); one such payload takes a sound message with it
  for good (`OneStopsAnother`), and nothing is lost over a run exactly when no request fails
  (`LosslessExactly`). Key requests are answered for the first device of the account that the
  regular message goes to, so they fail if the account asked about has no such device.
- A carrier with exactly one bare chunk header left costs a queued payload a label on the
  server and nothing on the client; nothing else skips a label (`LabelsExactly`). An empty
  payload blocks the client's queue for good, while the server drops it (`EmptiesExactly`),
  and only that separates the two loops (`SameCutterExactly`).
- A payload cut with `create_ordered_chunks` from a positive label smaller than its length
  can lose the piece that goes out under label 1, which reads like a dummy; exactly then
  (`OrderedExactly`).
- A batch to persist is read with an inclusive end index, so it has up to 101 messages
  although the limit is named 100; a queue of n messages takes n / 101 removals, rounded up.
- Queues that became non-empty in the same second are polled in the order of their keys as
  texts, so which of them a stray key strands is a matter of spelling (`GetQueuesToPersist`).
- A queue key whose name contains `::`, ends in `:` or has `{` at an end is read back as
  another name (`KeyRoundTrip`). A key that leads to no queue, such as that of a deleted
  account, stops the persister with its whole poll off the index. Queues of the same poll
  that were in order are stranded (`StrandedQueues`, `FailingRun`), and the next message to
  one of them gives it a new time in the index (`StrandedInsert`, `OneStrayStrandsAnother`).
  The age bound holds exactly under the conditions of `AgeBoundExactly` and
  `AgeBoundOfDirectories`.
- The guid `counter` collides with the id counter's field (`InsertEntry`).

## Model

| member | source | states |
|---|---|---|
| Bincode.LittleEndianRoundTrip | common/src/deniable/chunk.rs:107 | The length prefixes of the serialized form read back to the length they were written from, for every length that fits the width. |
| Bincode.LittleEndianDigits | common/src/deniable/chunk.rs:107 | Byte i of a fixed-width number is its i-th base-256 digit, the least significant first. |
| Bincode.I32RoundTrip | common/src/web_api/mod.rs:339-342 | A chunk label in two's complement reads back unchanged over the whole 32-bit range. |
| Chunks.ChunkTypeRoundTrip | common/src/deniable/chunk.rs:6-30 | Kinds and labels convert into each other without loss; a label above 2 has no kind. |
| Chunks.SortDescIsTheStableSort | common/src/web_api/mod.rs:354-365 | A list is the sort of chunks under their reversed order if and only if it is descending and keeps, under every label, the original order. |
| Chunks.SortIgnoresOrder | common/src/web_api/mod.rs:354-365 | With distinct labels the sorted order depends only on which chunks there are. |
| Chunks.SerializeRoundTrip | common/src/web_api/mod.rs:337-342 | A serialized chunk list is read back exactly, whatever the chunks contain. |
| Chunks.ChunkLayout | common/src/web_api/mod.rs:337-342 | The bytes of a chunk one by one: the 64-bit length of its data, the data, the 32-bit label in two's complement. |
| Chunks.ListLayout | common/src/web_api/mod.rs:337-342 | A list is its 64-bit length followed by its chunks, each at the place the sizes of those before it give. |
| Chunks.SerializedSize | common/src/deniable/chunk.rs:107-108 | The size measured by the fill loops is 8 plus 12 and the data length for each chunk. |
| Cutting.FillIsGreedy | common/src/deniable/chunk.rs:58-112 | Each fill loop's result is the one and only cut that sends the longest fitting run of whole payloads and spends the remaining room on a piece, a dummy or ballast. |
| Cutting.ExactFill | common/src/deniable/chunk.rs:64-111 | For every queue and budget, serialized chunks and ballast make up the budget exactly, ballast is below a chunk header, and only the last chunk can be other than a final one. |
| Cutting.SameCutter | server/src/managers/denim/payload_cache.rs:192-228 | From queues with the same bytes the server and the client cut the same bytes and kinds and leave the same bytes; only data labels can differ. |
| Cutting.SameCarrier | server/src/storage/redis.rs:347-354 | From equal queues the carriers are equal to the last label, and the queues differ afterwards only by the label a bare header costs on the server. |
| Cutting.SameCutterExactly | common/src/deniable/chunk.rs:71 | At every budget the two loops leave the same bytes behind if and only if no queued payload is empty: the client never gets past an empty one, the server drops it. |
| Streams.CutsConcat | common/src/deniable/chunk.rs:67-109 | Cutting a queue over two stretches of carriers one after the other is cutting it over both. |
| Streams.FillCutsOff | common/src/deniable/chunk.rs:71-98 | One client carrier sends a prefix of the queued bytes as falling pieces and finals and leaves the rest sendable, labels without gaps. |
| Streams.ServerFillCuts | server/src/managers/denim/payload_cache.rs:203-227 | The same for a server carrier, with gaps in the labels allowed. |
| Streams.ClientRunCuts | common/src/deniable/chunk.rs:58-112 | The same for any number of client carriers of any sizes. |
| Streams.ServerRunCuts | server/src/managers/denim/payload_cache.rs:192-228 | The same for any number of server carriers of any sizes. |
| Streams.SameCutterOverRuns | server/src/managers/denim/payload_cache.rs:192-228 | Over any run of carriers the two cutters send the same bytes in the same shape and leave the same bytes. |
| Streams.LabelsFall | common/src/deniable/chunk.rs:83-98 | Over any run the pieces of one payload carry strictly falling labels; on the client they start at 0 after a final chunk and fall one at a time. |
| Labels.LabelsExactly | server/src/storage/redis.rs:438-455 | A piece carries its payload's first label less one for every piece and, on the server, for every bare chunk header since the payload began; nothing else skips a label. |
| Labels.ServerLabels | server/src/storage/redis.rs:347-354 | Over any run of server carriers the label falls between two pieces of one payload by exactly the pieces and the bare headers from the one up to the other. |
| Labels.ClientLabels | common/src/deniable/chunk.rs:83-98 | Over any run of client carriers it falls by exactly the pieces. |
| Labels.SameRunWithoutBareHeaders | server/src/managers/denim/payload_cache.rs:203-227 | Without a bare header the server's run equals the client's to the last label. |
| Assembly.SameAssembly | client/src/client.rs:621-664 | On a stream without dummies the client's reassembly loop and the server's give the same payloads and the same unfinished chunks. |
| Assembly.AssembleConcat | server/src/managers/denim/denim_manager.rs:205-230 | Reassembling two stretches in turn, carrying the unfinished chunks over, is reassembling both at once. |
| Assembly.CutsConserve | server/src/managers/denim/denim_manager.rs:205-230 | For any cut stream the payloads that come out, followed by those still owed, are the payloads that went in, in order: nothing lost, invented or mixed. |
| Assembly.ReorderingIsInvisible | server/src/managers/denim/denim_manager.rs:217-221 | Shuffling each payload's data chunks does not change the payloads reassembled, as long as their labels differ. |
| Assembly.ReorderedReassembly | server/src/managers/denim/denim_manager.rs:205-230 | Any cut stream, its data chunks shuffled within each payload and dummies put anywhere, reassembles to exactly the payloads queued, with nothing pending once all is sent. |
| Assembly.ReorderedRunReassembly | common/src/deniable/chunk.rs:58-112 | The same for the client's carriers of any sizes, by the client's own labels. |
| Relay.FlushFaithful | server/src/managers/denim/denim_manager.rs:72-87 | If the page suffices, a flush hands on the right payloads and the chunks it stores owe the right rest. |
| Relay.FlushFaithfulExactly | server/src/managers/denim/denim_manager.rs:72-87 | A flush and a later full reading together yield the buffer's payloads if and only if the page covers the buffer, or ends between payloads, or nothing behind it finishes a payload. |
| Relay.PageLimitBreaksReassembly | server/src/storage/redis.rs:9 | A concrete 101-byte payload over 101 smallest useful carriers: the flush yields nothing and the next reading yields a one-byte payload. |
| Relay.ServerBatchesAreOnePass | server/src/server/server.rs:187-220 | However a dummy-free stream is split into requests, store-then-flush-on-final gives the payloads and the buffer of one pass, with at most a page buffered. |
| Relay.ClientBatchesAreOnePass | client/src/client.rs:621-664 | However the stream is split into messages, the client's machine gives the payloads and the table of one pass. |
| Relay.MachinesAgree | client/src/client.rs:621-664 | The server's machine and the client's agree on any two splittings of the same stream. |
| Sizing.CarrierProgress | common/src/deniable/chunk.rs:67-109 | A carrier of at least 21 bytes takes off a non-empty queue at least the head payload or all but 20 bytes of its budget. |
| Sizing.Drains | common/src/deniable/chunk.rs:58-112 | A backlog of B bytes is gone after at most B such carriers. |
| Sizing.EmptiesExactly | common/src/deniable/chunk.rs:71 | Some carriers empty the client's queue if and only if no payload in it is empty; the server's queue can always be emptied. |
| Sizing.DrainedMeansDelivered | common/src/deniable/chunk.rs:58-112 | After that many carriers the reassembled payloads are the queued ones, in order, and nothing is pending. |
| Sizing.OnePayloadConcatenates | common/src/deniable/chunk.rs:58-112 | One queued payload over as many useful carriers as it has bytes: the non-dummy chunks concatenate to it. |
| Sizing.PieceCount | common/src/deniable/chunk.rs:67-108 | A payload of L bytes over carriers of at least T >= 21 is cut into at most 2 + (L-2)/(T-20) chunks. |
| Sizing.ServerPieceCount | server/src/managers/denim/payload_cache.rs:203-227 | The same bound holds of every payload the server's cutter finishes. |
| Sizing.RequestChunks | client/src/client.rs:370-407 | The number of chunks in one request is bounded by its messages and their budgets. |
| Sizing.OpenPieces | server/src/storage/redis.rs:9 | The pieces buffered of an unfinished payload are bounded by its length and the least budget. |
| Text.NatRoundTrip | server/src/storage/redis.rs:79-86 | Every printed id parses back. |
| Text.PrintsDecimal | server/src/storage/redis.rs:97-99 | A printed number consists of its decimal digits, most significant first, with no zero in front. |
| Text.IntRoundTrip | server/src/storage/redis.rs:88-95 | Every printed signed label parses back and contains no colon. |
| Text.SplitField | server/src/storage/redis.rs:79-95 | Splitting at colons gives back a field without colons and then the fields of the rest. |
| Text.Base64RoundTrip | server/src/storage/redis.rs:97-99 | Decoding gives back the bytes that were encoded. |
| Text.SymbolIsNth | server/src/storage/redis.rs:97-99 | The symbol for n is the n-th of the alphabet of RFC 4648 section 4. |
| Text.Base64Exactly | server/src/storage/redis.rs:97-99 | Symbol by symbol: of every three bytes read as one number the four base-64 digits, most significant first, in that alphabet, and padding where a last group runs out of bytes. |
| Text.Base64Canonical | server/src/storage/redis.rs:60-62 | The strict decoder accepts only texts the encoder writes. |
| Text.Base64HasNoColon | server/src/storage/redis.rs:97-99 | Encoded bytes never contain the field separator. |
| Entries.EntryRoundTrip | server/src/storage/redis.rs:79-99 | Splitting an entry gives back id, bytes and order, for every id, byte string and signed order. |
| Entries.EntryExamples | server/src/storage/redis.rs:97-99 | The byte 0xFB under id 1 and label 0 is stored as `1:+w==:0`, no bytes under id 12 and label -3 as `12::-3`. |
| Entries.InsertRepresents | server/src/storage/redis.rs:101-187 | The commands of an insert keep the two hashes inverse bijections onto the live ids, ids at most the counter, list order equal to id order, and append exactly the new item. |
| Entries.RemoveRepresents | server/src/storage/redis.rs:189-274 | The commands of a removal find exactly the item with the guid's id, drop exactly it, and keep the same. |
| Entries.UpdateZset | server/src/storage/redis.rs:408-456 | Rewriting an entry removes one member, adds one and leaves it at its place in the sorted set. |
| Entries.UpdateRepresents | server/src/storage/redis.rs:408-456 | Replacing an item's bytes and order leaves the hashes representing the queue. |
| Entries.RemovePrefix | server/src/storage/redis.rs:189-274 | Removing the guids of the first n items leaves the rest in order and returns the n values in order. |
| QueueKeys.KeyTextInjective | server/src/managers/message/message_cache.rs:243-250 | Two queues share a key only if they are the same queue, whatever kinds they are of and whatever their names contain. |
| QueueKeys.KeyExample | server/src/managers/message/message_cache.rs:243-250 | The queue of device 1 of alice has the key `user_queue::{alice::1}`. |
| SortedSet.LexLessExactly | server/src/managers/message/message_cache.rs:197-205 | One text comes before another if and only if behind a common prefix it ends or has the smaller character. |
| SortedSet.SortedUnique | server/src/managers/message/message_cache.rs:197-205 | The order of a sorted set depends only on which entries there are. |
| SortedSet.InsertsCommute | server/src/storage/redis.rs:175-184 | The order in which two queues are listed makes no difference. |
| QueueKeys.KeyRoundTrip | server/src/managers/message/message_cache.rs:298-303 | Parsing a printed queue key never panics, and gives back name and device if and only if the name has no double colon, no colon at its end and no brace at either end. |
| RedisQueues.TakeItemIsTakeBytes | server/src/storage/redis.rs:327-378 | What a dequeue does to the item list is what the server's cutter does to its byte queue. |
| RedisQueues.InsertEntry | server/src/storage/redis.rs:109-187 | A new guid is appended under the next id; an existing one returns its old id and changes nothing; the guid spelled like the counter field is dropped, or leaves no consistent queue. |
| RedisQueues.RemoveEntries | server/src/storage/redis.rs:199-274 | Removing guids leaves and returns what removing them from the list does; an emptied queue keeps no counter. |
| RedisQueues.ReadPage | server/src/storage/redis.rs:295-324 | A reading returns the first 100 entries and their guids in order. |
| RedisQueues.UpdateValue | server/src/storage/redis.rs:408-456 | The item with the id is rewritten in place one label down and its old label returned; without such an item nothing changes. |
| RedisQueues.Redis.Insert | server/src/storage/redis.rs:101-187 | The same on all queues: one queue changes, its key enters the index unless listed, and index and structures stay right, except that an empty queue given the counter's name as guid represents no list any more. |
| RedisQueues.Redis.Remove | server/src/storage/redis.rs:189-274 | Guids are removed in order; the index loses the queue and the counter restarts exactly when the queue is empty; the index goes on listing exactly the non-empty queues of the kinds no persister polls. |
| RedisQueues.Redis.GetValues | server/src/storage/redis.rs:276-324 | At most 100 entries in insertion order, and none while the queue is locked. |
| RedisQueues.Redis.GetFirst | server/src/storage/redis.rs:380-406 | The first entry, unless the queue is locked or empty. |
| RedisQueues.Redis.DequeueBytes | server/src/storage/redis.rs:327-378 | Takes bytes off the head as the list model says, never fails, yields a dummy from an empty or locked queue, keeps all other queues, and the index goes on listing exactly the non-empty queues. |
| DeniablePayloads.RouteAllKeeps | server/src/server/server.rs:223-281 | Of what is routed to an account, the messages showing a sender are exactly the messages that sender addressed to the account, in order. |
| DeniablePayloads.RouteAllSucceeds | server/src/server/server.rs:223-281 | Routing succeeds if and only if every message goes to a known account with base64 content and every key request asks about a known account whose keys are there. |
| DeniablePayloads.RoutedExactly | server/src/server/server.rs:223-281 | What an account gets of a flush, field by field: for every message addressed to it an envelope with kind, decoded content, times, sender and the sender's device id modulo 256, and for every key request of one of its own devices the keys of the device asked about, in the order of the flush and nothing else. |
| DeniablePayloads.ResponsesRouted | server/src/server/server.rs:225-251 | The key responses routed to an account are, in order, the bundles asked for if the account is the sender's, and none otherwise. |
| DeniablePayloads.RoutesAreDeliverable | server/src/server/server.rs:223-281 | Only kinds a client handles are ever routed. |
| DeniablePayloads.EncodedPart | client/src/client.rs:494-502 | A stretch of an encoded payload list decodes to the payloads at that place. |
| TwoHop.SubmitKeepsHop1 | client/src/client.rs:429-505 | Queueing a payload keeps first-hop conservation. |
| TwoHop.RequestKeepsHop1 | server/src/server/server.rs:187-220 | A request of any carriers keeps it: emitted, then completed in the buffer, then owed by buffer and client queue, equals submitted. |
| TwoHop.EnqueueKeepsHop2 | server/src/managers/denim/denim_manager.rs:129-147 | Queueing routed payloads keeps second-hop conservation. |
| TwoHop.DeliverKeepsHop2 | server/src/managers/denim/denim_manager.rs:150-196 | The payloads a delivery of any budget reassembles can always be read and are of kinds the client handles, and it keeps the second law: received, then owed by queue and client table, are the payloads routed. |
| TwoHop.StepKeeps | server/src/server/server.rs:177-294 | An honest step from a state without losses succeeds if and only if the key requests it flushes can be answered, and then keeps both conservation laws at every device, the attribution and the absence of losses. |
| TwoHop.RunKeeps | server/src/server/server.rs:177-294 | The same over every run whose key requests can be answered. |
| TwoHop.AttemptKeeps | server/src/server/server.rs:220-247 | Every attempt whose flush fits its page, also a request that fails after it, keeps both conservation laws and the attribution, whatever is submitted and whichever keys are missing. |
| TwoHop.StepSucceeds | server/src/managers/key_manager.rs:167-192 | A step fails exactly when it is a request that flushes a message which cannot be routed or a key request that cannot be answered. |
| TwoHop.TwoHopFifo | client/src/client.rs:621-664 | Over every run whose key requests can be answered, with any interleaving of submits, requests and deliveries of any sizes, the messages a device has from a sender are a prefix, in order, of those the sender submitted for its account. |
| TwoHop.DrainedMeansAll | client/src/client.rs:621-664 | Once queues and buffer are empty, the device has exactly the messages submitted for its account. |
| Delivery.SizedIsGood | server/src/storage/redis.rs:9 | Runs within the sizes, with keys for every account, never flush a buffer beyond its page, and succeed. |
| Delivery.SizedFifo | server/src/managers/denim/denim_manager.rs:72-87 | First-in-first-out delivery from a bound on budgets and payload sizes, and keys for every account. |
| Delivery.EnoughCarriersDeliver | common/src/deniable/chunk.rs:58-112 | From any state a sized run reaches, as many one-carrier requests as the outbox holds bytes and then as many deliveries as the queue holds bytes leave the receiver with every message submitted for it. |
| Delivery.SharedTagMisattributes | server/src/server/server.rs:259-268 | If another device shows the same account and device byte, a run exists in which its message is taken for the sender's. |
| Delivery.FifoExactly | server/src/envelope.rs:18-47 | Every good run delivers a sender's messages in order if and only if no other device of the same account has an id congruent modulo 256. |
| Delivery.SmallIdsFifo | server/src/server/server.rs:259-268 | While all device ids are below 256, the messages a device received under a sender's account and very device id are a prefix, in order, of those submitted for its account. |
| Losses.LossyFifo | server/src/server/server.rs:215-291 | Over every run whose flushes fit their page, failures included: what a device received from a sender is, in order, a part of what that sender submitted for its account, and a prefix of what the server passed on. |
| Losses.SuccessMeansFifo | server/src/server/server.rs:215-291 | If no request failed, it is a prefix of what was submitted, whatever that was. |
| Losses.LosslessExactly | server/src/server/server.rs:223-281 | Nothing read from a buffer is lost over a run if and only if no request of it fails. |
| Losses.LossIsFinal | server/src/server/server.rs:223-281 | What a failed request lost never comes back, whatever follows. |
| Losses.OneStopsAnother | server/src/server/server.rs:227-241 | A payload that cannot be routed, such as a request for keys that are not there, takes a sound message of the same flush with it: no continuation delivers it. |
| KeyAnswers.KeyAnswersInOrder | server/src/server/server.rs:225-251 | Over every run, failures included, the bundles a device received are, in order, a prefix of those that requests of its own account's devices were answered with, and all of them once its queue is empty. |
| KeyAnswers.SoleDeviceAnswers | server/src/server/server.rs:225-251 | The only device of an account receives, if no request fails and the keys stay the same, a prefix of the bundles its submitted key requests ask for. |
| DeviceStore.Device.StoreDeniablePayload | client/src/storage/device.rs:1112-1147 | Without an id a row is added at the end with count 0; with the id of any row that row is rewritten in place and no other; with an unknown id nothing changes. |
| DeviceStore.Device.RemoveDeniablePayload | client/src/storage/device.rs:1149-1165 | Removes the row with the id, wherever it is, and no other. |
| DeviceStore.Device.GetAndRemoveIncomingChunks | client/src/storage/device.rs:1302-1353 | Returns all stored chunks in order and empties the table. |
| DeviceStore.Device.StoreIncomingChunks | client/src/storage/device.rs:1355-1382 | Adds the chunks behind those stored, in order. |
| Chunker.CreateChunks | common/src/deniable/chunk.rs:58-112 | The loop over the table terminates, never underflows, cuts as the client's cutter does, leaves that cutter's queue in the table and fills the budget exactly. |
| Chunker.CreateOrderedChunks | common/src/deniable/chunk.rs:114-166 | The loop over one payload in memory does the same and returns what is not sent with its next label. |
| Chunker.SendOrdered | common/src/deniable/chunk.rs:114-166 | Called for one carrier after the other on the data it returned, from any starting label: computes that run, and after as many useful carriers as bytes nothing is pending. |
| Chunker.OrderedExactly | common/src/deniable/chunk.rs:114-166 | Over every list of carriers the non-dummy chunks and the pending data make up the payload if and only if its starting label is not positive or the payload has no more bytes than that label. |
| Client.SendDeniableMessage | client/src/client.rs:429-505 | Queues the payloads of one message at the end, in order, with labels starting at 0. |
| Client.SendMessage | client/src/client.rs:370-407 | Every message of a request gets a chunk area of exactly its budget, and all areas together are one run of the cutter. |
| Client.HandleIncomingChunks | client/src/client.rs:621-664 | Computes the client's reassembly machine on the stored and the new chunks, reading the table only when a final chunk has come; if a payload cannot be read, the table is left empty. |
| Client.ReceiveMessage | client/src/client.rs:549-555 | The same on the chunks of a message once dummies are dropped. |
| DenimManager.EnqueueIncomingChunkBuffer | server/src/managers/denim/denim_manager.rs:56-69 | Appends the chunks to the sender's buffer in order and touches no other queue. |
| DenimManager.DequeueIncomingChunks | server/src/managers/denim/chunk_cache.rs:164-187 | Returns exactly the first min(n, 100) chunks in insertion order and leaves the rest in order. |
| DenimManager.CreateDeniablePayloads | server/src/managers/denim/denim_manager.rs:205-230 | The loop computes the server's reassembly and deserializes its payloads, and fails exactly on a chunk of unknown kind or a payload that cannot be read. |
| DenimManager.FlushIncomingChunkBuffer | server/src/managers/denim/denim_manager.rs:72-87 | Reads a page, hands on its payloads and stores the unfinished chunks behind the unread ones; a locked buffer stays as it is; on failure exactly the page is gone. |
| DenimManager.EnqueueOutgoingPayloadBuffer | server/src/managers/denim/denim_manager.rs:129-147 | Appends the encoded payloads to the receiver's byte queue in order, labels at 0. |
| DenimManager.DequeuePayloadData | server/src/managers/denim/payload_cache.rs:192-228 | The loop over the Redis queue terminates and computes the server's cutter on the queue its reader sees. |
| DenimManager.DequeueOutgoingPayloadBuffer | server/src/managers/denim/denim_manager.rs:150-169 | The same as chunks. |
| DenimManager.CreateDenimMessage | server/src/managers/denim/denim_manager.rs:172-196 | Chunks and ballast of a delivered message fill its budget to the byte. |
| Server.GroupByAccount | server/src/server/server.rs:220-281 | The map built in the loop holds for every account exactly the payloads routed to it, in order, and the loop fails exactly when routing does. |
| Server.QueueForDevices | server/src/server/server.rs:283-291 | Every device of every account in the map gets the account's payloads appended, and no other queue changes. |
| Server.HandleReceivingChunks | server/src/server/server.rs:177-294 | Succeeds exactly when the flushed payloads can be read and routed and the keys asked for are there; then the buffer holds what the server's machine stores and every device's queue has grown by what becomes of the flushed payloads that concern its account, field by field; on failure only the sender's buffer changes, which has lost what was read. |
| Server.HandlePutMessages | server/src/server/server.rs:102-111 | The chunks of all messages, folded and handled: the request succeeds exactly when the machine's step does, and takes Redis contents that mirror a state to contents that mirror the state after the request, failed or not. |
| Server.DeliverTo | server/src/managers/websocket/connection.rs:117-147 | Preparing a message for a device cuts what a delivery step cuts and leaves the contents of that step's state. |
| Transport.Submit | client/src/client.rs:429-505 | Queueing a message on the client is the machine's submit step. |
| Transport.Request | server/src/server/server.rs:70-175 | A request cut by the client's loop and handled by the server is the machine's request, failed or not, on the client's tables and the store alike, and succeeds exactly when its step does. |
| Transport.Deliver | client/src/client.rs:511-555 | A delivery cut by the server's loop and reassembled by the client never fails and is the machine's delivery step; what the client gets is what the step records as received. |
| Transport.Execute | client/src/client.rs:511-555 | The methods of clients and server, carrying out any list of events, go through the states of the machine, failures included, and what the clients' receive methods return is what the machine records as received. |
| Transport.Session | client/src/client.rs:511-555 | From empty clients and an empty store: what each client got from each sender with a tag of its own is, in order, a part of what was submitted for its account, and a prefix if no request failed; and the bundles it got are the first of those its account's requests were answered with. |
| Indexes.InsertAgrees | server/src/storage/redis.rs:175-184 | An insert under a monotone clock keeps the index listing exactly the non-empty queues, each scored no later than any of its messages. |
| Indexes.RemoveAgrees | server/src/storage/redis.rs:255-270 | A removal keeps the same, the queue leaving the index when it becomes empty. |
| Indexes.TakeAgrees | server/src/storage/redis.rs:346-377 | A dequeue of bytes keeps the same: part of the head leaves the listing alone, the last value takes the queue off. |
| Indexes.StrandedInsert | server/src/storage/redis.rs:175-184 | An insert into a queue that holds messages but is off the index puts the index in step again if and only if no message that was waiting is older than the insert. |
| Indexes.PollAgrees | server/src/managers/message/message_cache.rs:207-214 | A queue taken off by a poll is the only difference between index and queues until it has been moved. |
| Indexes.NothingOld | server/src/managers/message/message_cache.rs:189-216 | A poll that finds nothing means that no cached message is as old as the limit. |
| MessageCache.Insert | server/src/managers/message/message_cache.rs:89-115 | Appends the envelope under its guid, or changes nothing if the guid is there, and keeps index and queues in step. |
| MessageCache.GetMessagesToPersist | server/src/managers/message/message_cache.rs:170-187 | The cached messages in order, locked or not: all of them, or the first limit + 1 if there are more. |
| MessageCache.GetQueuesToPersist | server/src/managers/message/message_cache.rs:189-216 | The keys of the first limit queues scored at most the given time, by score and among equal scores by text, all of them and nothing else taken off the index. |
| MessagePersister.PushMessageQueue | server/src/storage/postgres.rs:448-478 | The batch arrives in the database behind what was there, message by message in order. |
| MessagePersister.PersistMessages | server/src/managers/message/messages_manager.rs:112-129 | Exactly the batch moves from the head of the cached queue to the end of the stored one: first every push, then the removal, at the moments listed. |
| MessagePersister.PersistQueue | server/src/persisters/message_persister.rs:148-174 | Terminates; the database has what it had followed by what was cached, in order, the cached queue is empty and off the index, the lock released, and the moments from start to end are exactly the pushes and removals of the batches; the lock holds at each of them, and there are n / 101 removals, rounded up. |
| MessagePersister.QueueIsSafe | server/src/persisters/message_persister.rs:148-174 | Those moments lead from cache and database as they were to all in the database, each one push or one removal of an already stored batch after the one before; a removal takes 101 messages, or all if fewer are left; in each moment no message is missing, at most one batch is in both places and the queue is locked. |
| MessagePersister.QueueRemovals | server/src/managers/message/message_cache.rs:177-181 | A queue of n messages goes in n / 101 removals, rounded up. |
| DueQueues.ResolvesItself | server/src/persisters/message_persister.rs:115-133 | A plainly named queue's key leads back to it if and only if the account is known by that name and has the device. |
| MessagePersister.PersistKeys | server/src/persisters/message_persister.rs:114-136 | The keys of a poll are dealt with in order; the run goes on if and only if all lead to a queue; exactly the queues of those before the first that does not are drained and taken off the index. |
| DueQueues.RunEnds | server/src/persisters/message_persister.rs:99-139 | A run whose last poll finds nothing has dealt with exactly the keys due at its last clock reading, over however many polls, from any sorted index that lists only queues with messages. |
| DueQueues.RunFails | server/src/persisters/message_persister.rs:116-131 | A run with a key that leads nowhere has dealt with exactly the due keys before it, and has taken off the index the due keys up to some point behind it: all of them, or as far as a full poll goes, at most one poll of them not dealt with. |
| MessagePersister.Persist | server/src/persisters/message_persister.rs:99-139 | A run from any store, so also after failed runs, terminates and moves queues only as wholes. For the program's directories it drains exactly the queues of the due keys before the first that leads nowhere and succeeds if and only if there is none; from an index in step, if every non-empty queue's key leads back to it, no message inserted at or before t - 600 is cached at its last clock reading t. |
| MessagePersister.StoreIsOrderly | server/src/storage/redis.rs:255-270 | The index of ordinary messages is sorted by score and lists only queues that hold messages, at every moment and whatever runs have failed. |
| AgeBounds.AgeBoundExactly | server/src/persisters/message_persister.rs:98-139 | After any run over the program's directories, failed or not and from any store, no cached message is as old as the limit if and only if every queue with such a message was led to by a due key before the first that leads nowhere. |
| AgeBounds.AgeBoundOfDirectories | server/src/storage/postgres.rs:97-126 | For the program's directories and an index in step: a run succeeds and leaves nothing old if and only if every due key leads somewhere and every queue with an old message is led to by its own key. |
| AgeBounds.InStepExactly | server/src/persisters/message_persister.rs:115-133 | For the program's directories and an index in step: a run succeeds and leaves the index in step with the queues if and only if every due key leads back to its queue. |
| AgeBounds.StrandedQueues | server/src/managers/message/message_cache.rs:207-214 | After a failed run a due queue that no key before the failing one led to still has its messages, and is off the index exactly if its key was among those the polls had taken; with at most a poll of due queues it always is. |
| MessagePersister.FailingRun | server/src/persisters/message_persister.rs:116-131 | A whole run, from two inserts on: one queue of an account that is gone, one of an account that is there. The run fails, and the sound queue's old message stays cached, unlisted and not stored. |
| MessagePersister.OneStrayStrandsAnother | server/src/persisters/message_persister.rs:116-131 | One more message, and the index claims that all messages of the sound queue are new. |
| MessagePersister.StrayQueueStays | server/src/persisters/message_persister.rs:115-133 | Over every directory in which accounts are also found by their own names, an old message of a queue whose plainly written key leads elsewhere is still cached after any run. |

## Left out

- Network, TLS, WebSocket, tokio scheduling, SQL text and the command line: input and output without provable content.
- Encryption, sessions and prekey bundles: foreign code. Encrypted content is an arbitrary byte string, and the server's key lookups are a parameter of a request.
- The serialization of deniable payloads and envelopes is the parameter `Codec`, of which the round trip and non-empty output are assumed; only chunk lists are encoded concretely.
- Rounding of the 32-bit float product of message size and q: a budget is an integer.
- Wrap-around of 32-bit labels and of the client's chunk counter after two billion pieces of one payload: labels are unbounded, except where they are serialized.
- Redis expiry times, listener notifications and the 30-second life of the persisting key: a lock holds until it is released.
- Interleavings inside one operation, failed sends, lost messages and retries: the program gives no guarantee there. Steps are atomic and the link reliable.
- Random UUIDs are a generator of texts never issued before; only their novelty matters.
- In the Redis class queues are found by kind and address, while the members of the index are the printed keys. Keys are proved injective, so nothing is lost by this.
- Delivery after persistence and acknowledgement: acknowledging one message deletes every stored message of the address, so no claim is made beyond the move to the database.
- The key-request and awaiting-message flow of the client: awaiting messages are never removed after sending, so exactly-once delivery cannot be claimed. The server's side of a key request is in the model, with the key store as a parameter that may have no answer.
- Message padding, device-list validation, contacts, presence, registration and linking: easy members beside the core.
- The outgoing chunk buffer and the readings that do not remove anything: they repeat the incoming buffer's operations and carry no payload in the two-hop protocol.
- The regular messages of a request: only their sizes matter here, and their queues are those of `MessageCache`.
- Accounts are keyed by their account identifier in the two-hop model; the phone-number identity appears only in the persister, as an account found under another name.
- MessageCache.Insert: requires a guid other than `counter`, which its callers always supply; what happens otherwise is in `RedisQueues.Redis.Insert`.
- DeliverKeepsHop2: ends where the client's reassembly returns payloads. What the client then does with them is left out; it panics on a key response, which goes to every device of an account, if this device sent no such request, and loses the payloads behind it in that delivery.
- HandlePutMessages: does not model the regular messages of a request and the validators of its device list; it is stated for requests cut by the client's own loop while the sender's buffer is unlocked (the program never locks chunk buffers); other chunks a client might send are covered by `HandleReceivingChunks`.
- PersistQueue: is stated for devices with a database row, which the persister has just looked up; a message pushed for a device without a row is dropped without an error.
- PushMessageQueue: rows are found by account identifier or phone-number identity in the program, by the account's name here.
- Persist: assumes a clock that never runs back and at least 600, because the program subtracts the delay unchecked.
