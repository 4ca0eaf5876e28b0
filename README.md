# xipinfos batch query, modelled in Dafny

`BatchQuery` in `xipinfos.go` resolves metadata for a list of IP addresses
through a remote batch-lookup service. It removes repeated addresses
(keeping first-seen order), cuts the remaining items into contiguous
batches of at most 100, starts one goroutine per batch that runs `doQuery`,
waits for all of them on a `sync.WaitGroup`, and drains the shared buffered
channel into the returned slice. `doQuery` marshals the batch, POSTs it,
reads and decodes the response, and sends the decoded records to the
channel only after all four stages succeeded; any error returns early and
is discarded by `BatchQuery`.

The model:

- `records.dfy` (`Records`): the request item, the result record, the
  error-carrying `Result` and `Option`.
- `dedup.dfy` (`Deduplication`): the specification `Dedup` (recursive on
  the last address, the way the loop reads its input), its properties, and
  the method `Deduplicate`, the source's loop over a `map<string, bool>`.
- `batching.dfy` (`Batching`): the slices the `startIdx`/`endIdx` loop emits
  (`BatchesFrom`, `Batches`), with tiling, size and count lemmas. The loop
  body runs before the exit test, so `n == 0` still gives one slice `[0, 0)`.
- `query.dfy` (`Query`): the remote service as four fail-able stages
  (`Service`, `Pipeline`), the buffered channel as a class, and `DoQuery`.
- `xipinfos.dfy` (`XipInfos`): the loop that dispatches every batch
  (`Dispatch`), the orchestrator `BatchQuery`, and lemmas for concrete
  scenarios: a repeated address, a batch boundary, a failing batch, and
  empty input.

The goroutines are modelled as running one after another in creation
order. Only the multiset of results is specified, so no claim depends on
that order. The channel has capacity `len(batchedIPQueryItems)` and is
drained only after `wg.Wait()`. If the successful batches decode more
records than there are distinct addresses, a sender blocks forever and
`BatchQuery` never returns. The model represents that outcome as `None`.

Two behaviours of the code that a caller might not expect, both modelled
as the code has them:

- Empty input: a caller would expect no query for empty input. The code
  dispatches exactly one query with an empty batch (`EmptyInputScenario`).
- Result count: a caller would expect at most one record per distinct
  address. The code does not truncate. A larger response makes the call
  hang (`BatchQuery`, `WellBehavedServiceNeverBlocks`).

## Model

| member | source | states |
|---|---|---|
| Deduplication.Dedup | xipinfos.go:63-70 | the deduplicated sequence holds exactly the input's addresses (both directions) and no address twice |
| Deduplication.DedupFirstOccurrenceOrder | xipinfos.go:65-69 | every pair of kept addresses is ordered by first occurrence in the input, so the result is a subsequence of the input |
| Deduplication.DedupOfDistinct | xipinfos.go:65-69 | an input without repeats comes back unchanged, in content and order |
| Deduplication.DedupCharacterized | xipinfos.go:63-70 | a sequence equals the deduplicated input if and only if it has no repeats, holds exactly the input's addresses and is in first-occurrence order |
| Deduplication.FirstOccurrenceOrderUnique | xipinfos.go:65-69 | two repeat-free sequences with the same addresses, both in first-occurrence order, are equal |
| Records.ItemsOf | xipinfos.go:67 | one request item per address, in order: same length, and each item carries the address at its position |
| Deduplication.Deduplicate | xipinfos.go:63-70 | the loop over `mapIps` produces one item per address of the deduplicated sequence, in its order |
| Batching.BatchEnd | xipinfos.go:78-81 | the end index is at most 100 past the start and never past the length, and is exactly start + 100 unless it is clamped |
| Batching.BatchesFrom | xipinfos.go:76-94 | the slices the loop emits with `startIdx` starting at a given index: one slice ending at the clamped end, then, unless that end reached n, the slices from there; reference definition whose properties BatchesFromTile and BatchesFromCount state |
| Batching.Batches | xipinfos.go:76-94 | every emitted slice lies within [0, n], so the slicing `batchedIPQueryItems[start:end]` is always in range |
| Batching.BatchesTile | xipinfos.go:76-94 | the emitted slices start at 0, each starts where the previous ended, the last ends at n, none exceeds 100 items and all but the last hold exactly 100 |
| Batching.BatchesFromTile | xipinfos.go:76-94 | the same tiling for the slices emitted from any start index, proved by induction on n - start, the loop's termination measure |
| Batching.BatchesFromCount | xipinfos.go:77-94 | from start index s the loop emits one slice if s == n, else ceil((n - s) / 100) |
| Batching.BatchesCount | xipinfos.go:77-94 | the loop emits max(1, ceil(n / 100)) slices |
| Batching.Chunks | xipinfos.go:85 | the item slices `batchedIPQueryItems[start:end]` for a list of ranges: one per range, in order; their contents are stated by ChunksOfBatches |
| Batching.ChunksOfBatches | xipinfos.go:76-94 | the item slices handed to the workers, concatenated in creation order, give back all deduplicated items, each slice holds at most 100 and all but the last exactly 100 |
| Batching.EmptyInputOneEmptyBatch | xipinfos.go:76-94 | zero items still produce exactly one slice, [0, 0) |
| Batching.BatchesFromStep | xipinfos.go:78-93 | one loop iteration extends the emitted prefix of the slices, and the iteration that reaches n completes them |
| Query.Pipeline | xipinfos.go:33-53 | the error of the first failing stage (marshal, POST, body read) is the result; the result is `Ok` exactly when all four stages succeed, and is then what decoding yields |
| Query.Contribution | xipinfos.go:34-57 | a batch contributes records only when its whole pipeline succeeded, and then exactly the decoded records |
| Query.WorkerEffect | xipinfos.go:32-59 | a worker only appends records of its own batch, in order, never past the capacity; a worker that returns an error leaves the channel unchanged; one that returns without error has sent every decoded record, in order; a blocked worker leaves it full |
| Query.ResultChannel.constructor | xipinfos.go:74 | a new channel is open, empty and has the given capacity |
| Query.ResultChannel.TrySend | xipinfos.go:56 | a send buffers the record exactly when the channel has room; otherwise the sender would block and nothing changes |
| Query.ResultChannel.Close | xipinfos.go:97 | closing marks the channel closed |
| Query.ResultChannel.Receive | xipinfos.go:100-102 | receiving from a closed channel yields the oldest buffered record and removes it, or nothing once it is drained |
| Query.ResultChannel.Drain | xipinfos.go:99-102 | draining a closed channel returns every buffered record, oldest first, and leaves it empty |
| Query.DoQuery | xipinfos.go:32-59 | on an error in marshal, POST, read or decode the worker returns that error and sends nothing; on success it sends every decoded record in order, or fills the channel and stays blocked when they do not fit |
| XipInfos.ResultsOf | xipinfos.go:55-57 | the collection holds every batch's contribution, and is empty when no batch contributes anything |
| XipInfos.Dispatched | xipinfos.go:76-94 | the batches handed to the workers concatenate to the deduplicated items, number max(1, ceil(n/100)), hold at most 100 each and exactly 100 each except the last |
| XipInfos.ResultBag | xipinfos.go:96-104 | the expected collection holds the contribution of every dispatched batch |
| XipInfos.FanInStep | xipinfos.go:83-87 | one more worker keeps the fan-in invariant: its records join the collection, it stays blocked exactly when they do not fit, and then the channel stays full |
| XipInfos.Dispatch | xipinfos.go:72-94 | exactly the batches of the tiling are dispatched, in order; no worker stays blocked if and only if the records of the successful batches fit in the channel, and then the channel holds exactly those records; otherwise the channel is full |
| XipInfos.BatchQuery | xipinfos.go:62-105 | the call returns if and only if the successful batches' records number at most the distinct addresses, and then returns exactly the multiset union of those records; a failed batch contributes nothing and raises nothing |
| XipInfos.WellBehavedServiceNeverBlocks | xipinfos.go:74 | if the service never decodes more records than a batch has addresses, the results fit in the channel, so the call returns |
| XipInfos.ResultsOfSize | xipinfos.go:55-57 | under that service assumption the batches together contribute no more records than they hold addresses |
| XipInfos.AllFailedYieldNothing | xipinfos.go:85 | if every batch's query fails the collected results are empty |
| XipInfos.ResultsOfAppend | xipinfos.go:96-104 | the results of one more batch add its own records to the collection and change nothing else |
| XipInfos.ExactScenario | xipinfos.go:62-105 | for ["1.1.1.1", "8.8.8.8", "1.1.1.1"] one batch of the two distinct addresses is sent and the result is exactly the two records returned for it |
| XipInfos.BatchBoundaryScenario | xipinfos.go:76-94 | 250 distinct addresses give three batches: the first 100, the next 100 and the last 50 |
| XipInfos.PartialFailureScenario | xipinfos.go:84-87 | with 150 distinct addresses and a failing second batch only the first batch's records are collected |
| XipInfos.EmptyInputScenario | xipinfos.go:76-94 | empty input dispatches one query with an empty batch, and the result is what that query decodes |

## Left out

- HTTP POST, reading the response body and the `ipQueryURL` endpoint (xipinfos.go:13, 38-47) are network I/O. They are the stages `post` and `readAll` of `Service`, left unconstrained except that they return.
- JSON marshalling and unmarshalling and the struct tags (xipinfos.go:16-26, 33, 50) belong to a foreign library. They are the stages `marshal` and `unmarshal`, left unconstrained.
- `resp.Body.Close()` (xipinfos.go:47) is resource handling with no effect on the results.
- The goroutines, `sync.WaitGroup` and the channel's thread safety (xipinfos.go:72-74, 83-87, 96-102) are concurrency. Workers run sequentially in creation order, the WaitGroup is a counter of unfinished workers, and a worker blocked for good is the outcome `Parked`.
- XipInfos.BatchQuery: every stage of a query is modelled as returning. A POST with the default HTTP client has no timeout and a body read can block (xipinfos.go:38, 43), so a stalled server keeps its worker from reaching `wg.Done()` and `wg.Wait()` never returns; such a hang is not represented, and the "results fit, so the call returns" direction holds only for a service that answers.
- XipInfos.BatchQuery: states the results only as a multiset, because concurrent workers may send their records in any interleaving.
- `IPQueryResult.String` (xipinfos.go:28-30) is display formatting through `fmt.Sprintf`.
- Go's `int` is at least 32 bits wide (32 or 64 depending on the platform). The model uses unbounded integers, because `startIdx + 100` cannot overflow: even on a 32-bit target a slice of pointers has at most 2^30 elements.
- Results are values, while the source returns `[]*IPQueryResult`. A JSON `null` element decodes to a nil pointer, which the model cannot represent.
- Go strings are byte sequences and Dafny strings are `seq<char>`. Address equality is unaffected, since no operation of the core looks inside an address.
- The error value returned by `doQuery` is modelled (`Returned(err)`), but `BatchQuery` discards it (xipinfos.go:85), as the code does.
