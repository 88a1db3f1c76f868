# sqsPeek drain and purge, modelled in Dafny

sqsPeek drains an Amazon SQS queue. A pool of pollers keeps calling
ReceiveMessage and appends every returned message to one shared collection.
The collection is written to a file. When the session's `PurgeQueue` field
is true (`cmd/execution/execute.go:129`), the tool then purges the queue; no
command-line flag in `cmd/rootCmd.go` sets that field. In the purge, a
producer streams the collection through a channel, and each
consumer turns the messages it takes into delete entries, cuts them into
batches of at most `MaxMessage` (10) and sends each batch in one
DeleteMessageBatch call.

This project models the sequential logic of `cmd/execution/execute.go`:

- `Queue` holds the message, request, response and delete-entry types and `MaxMessage`.
- `Poller` holds the receive loop of `fetchMessagesFromSQS`. It runs against
  a finite sequence of responses, the k-th answering the k-th call. If the
  sequence runs out while the poller would still call, the run is `Pending`.
  A receive error is the `Fatal` outcome; in the program it is `os.Exit(1)`.
- `Batching` holds the pure chunking definitions (`Chunks`, `Flatten`, `CeilDiv`).
- `Consumer` holds `purgeConsumer`: the entry mapping and the nested
  `idx`/`cnt` chunking loop. `performBatchDelete` is an abstract call that
  fails exactly for the call numbers in a given set. The first failure ends
  the run, as `os.Exit(1)` does in the program.
- `Handoff` holds the producer, `purgeProducer`. It states the channel
  hand-off as an arbitrary assignment `owner` of each message to one
  consumer. The same device describes the receive phase's collection: it is
  any interleaving of the pollers' appends.

A poller stops after the first response with no messages, including an
empty first response: `curr` and `prev` both start at 0 and the loop breaks
as soon as `curr == prev`, so it does not wait for a second empty response.
`Poller.FirstEmptyResponseStops` and `Poller.TenTenThreeScenario` state the
consequence: against batches of 10, 10, 3, 0 and 0 messages the poller makes
four calls and never requests the fifth response.

## Model

| member | source | states |
|---|---|---|
| Poller.FetchMessages | cmd/execution/execute.go:42-69 | The loop issues one ReceiveMessage call per response consumed, and every call asks for `MaxMessage` messages. It calls again after every non-empty batch and stops right after the first empty batch or error. It appends exactly the messages of the consumed responses, in response order, to the collection. Its loop invariant keeps `curr` equal to the number appended so far. If the responses run out first, the run is `Pending`. |
| Poller.AppendBatch | cmd/execution/execute.go:58-62 | The batch is appended to the collection item by item, in order: the collection afterwards is the old collection followed by the batch. |
| Poller.Poll | cmd/execution/execute.go:42-69 | A recursive reference definition of the poller, proved to meet the same run predicate `IsPollRun` as the loop. |
| Poller.PollRunUnique | cmd/execution/execute.go:42-69 | `IsPollRun` determines the run completely: the calls made, the messages appended and the way the run ended. So the loop and `Poll` agree on every input. |
| Poller.AppendedBounds | cmd/execution/execute.go:46-68 | A run of n calls that ended appended at least n - 1 messages, because every call before the last made `curr` grow strictly. If each response respects the cap of `MaxMessage`, it appended at most `MaxMessage * (n - 1)`. |
| Poller.FatalAppendsNothing | cmd/execution/execute.go:46-56 | After a receive error, the collection holds only what the earlier calls returned. The failing call adds nothing and no call follows it. |
| Poller.FirstEmptyResponseStops | cmd/execution/execute.go:43-66 | An empty first response ends the poller after exactly one call that appended nothing. |
| Poller.TenTenThreeScenario | cmd/execution/execute.go:42-69 | Responses of 10, 10, 3, 0 and 0 messages give four calls and 23 appended messages, in order. The fifth response is never requested. |
| Batching.ChunksFlatten | cmd/execution/execute.go:156-162 | Concatenating the batches in call order gives the entry list exactly: nothing is dropped, duplicated or reordered. |
| Batching.ChunkSizes | cmd/execution/execute.go:156-160 | Every batch is non-empty and has at most the chunk size in entries. Every batch except the last has exactly the chunk size. |
| Batching.ChunkCount | cmd/execution/execute.go:156-162 | The number of batches is ceil(len / size), which is zero for an empty list. |
| Consumer.CollectEntries | cmd/execution/execute.go:149-155 | There is one entry per message taken from the channel, in receipt order. Each entry's `Id` and `ReceiptHandle` are that message's `MessageId` and `ReceiptHandle`. |
| Consumer.TakeBatch | cmd/execution/execute.go:157-160 | The inner `cnt` loop copies entries from `idx` on into one batch. It stops when the batch holds `MaxMessage` entries or the list ends. So `idx` advances by min(10, entries left) and the batch is exactly the entries it passed over. |
| Consumer.SendBatches | cmd/execution/execute.go:156-173 | The outer `idx` loop sends the leading chunks of size `MaxMessage`, in order. It stops right after the first failing call. When no call fails, it sends every chunk. |
| Consumer.PurgeConsumer | cmd/execution/execute.go:147-163 | The whole consumer: the entries mirror the received messages, and every batch has 1 to 10 entries. All batches but the last have 10. Only the last call can have failed. A run with no failure deleted every entry once, in ceil(n / 10) calls. |
| Handoff.PurgeProducer | cmd/execution/execute.go:140-145 | The producer sends every message of the collection once, in collection order, and then closes the channel. |
| Handoff.ProducedStreamCarries | cmd/execution/execute.go:140-150 | What the channel carries before the close is exactly the collection. |
| Handoff.PortionsPartition | cmd/execution/execute.go:140-155 | Under any assignment of messages to consumers, the consumers' portions together hold every item exactly once. |
| Handoff.PurgeEntriesPartition | cmd/execution/execute.go:140-155 | Under any assignment, the delete entries across all consumers are exactly the entries of the collection, `len(s.messages)` of them. |
| Handoff.MergedCollection | cmd/execution/execute.go:42-69 | Suppose the collection interleaves the appends of pollers that each ran the receive loop against their own responses. Then each poller's share of the collection is exactly the messages of the responses it consumed, in order. The collection's length is the sum of what the pollers appended, and it holds exactly their messages. |
| Handoff.TotalCallsBounds | cmd/execution/execute.go:128-162 | Splitting the entries among consumers never uses fewer delete calls than ceil(total / 10). It uses at most one extra call for each consumer beyond the first. |
| Handoff.PurgeRunCalls | cmd/execution/execute.go:128-163 | In any purge run where no consumer failed, such as one `Handoff.PurgeAll` returns, the calls made number exactly the sum of ceil(entries / 10) over the consumers. That is at least ceil(total / 10) and at most one extra call for each consumer beyond the first. |
| Handoff.TwentyFiveOverTwoScenario | cmd/execution/execute.go:128-163 | With 25 messages, 2 consumers and no failing call, however the channel hands the messages out, the consumers build 25 entries in all and make 3 or 4 delete calls. |
| Handoff.PurgeAll | cmd/execution/execute.go:128-163 | The consumers run one after another, each on its portion of the producer's stream and against its own failing calls. Each consumer's entries are exactly those of its portion. Its calls are the leading chunks of its entries, every call but the last succeeded, and it failed exactly when its last call failed. A consumer with no failing call deleted all of its entries. Together these make its result a purge run (`IsPurgeRun`), so `Handoff.PurgeRunCalls` and `Handoff.TwentyFiveOverTwoScenario` count the calls it makes. |

## Left out

- AWS session, credentials and SQS client construction (`createAWSSession`, `initializeSQS`): foreign SDK calls. The ReceiveMessage and DeleteMessageBatch calls are replaced by the response sequence and the failing-call set.
- `createFile`: JSON marshalling and writing the file are I/O and library serialisation.
- Goroutines, `sync.WaitGroup`, `sync.Mutex`, the unbuffered channel's scheduling and `runtime.NumCPU` (`setPool`, `triggerPollers`, `Perform`, `deleteMessages`). Scheduling becomes the arbitrary `owner` assignment. `Handoff.PurgeAll` runs the consumers one after another.
- `os.Exit`: a failing call ends that worker's run with the `Fatal` or `DeleteFailed` status. Halting the other workers is not modelled.
- The `Failed` list in a DeleteMessageBatch response is not inspected by the code, so the model treats a call without an error as fully successful.
- `MessageId` and `ReceiptHandle` are pointers in the code and may be nil. The model uses plain strings.
- `curr` and `prev` are Go `int` values; their 64-bit overflow cannot happen at any realistic queue size, so counts are unbounded integers.
- Poller.AppendedBounds: its upper bound assumes the service returns no more than the `MaxMessage` messages requested. The code does not check this itself.
- The `if s.PurgeQueue` guard (`cmd/execution/execute.go:129`): `Handoff.PurgeAll` models the purge that runs when the field is true. Nothing in `cmd/rootCmd.go` sets the field.
- `cmd/rootCmd.go`: cobra flag registration and required-flag validation are command-line plumbing.
