# Verification model of the OpenFGA Go client

A Dafny model of the parts of the OpenFGA Go client where several components have to work
together, with proofs about every run, every input and every schedule:

* **Fanout**: `runParallel` as a step system. Its state is the main loop's program counter, the
  semaphore, the WaitGroup, one phase per index, the error slice and the context; its steps are taken
  in any order an arbitrary scheduler likes, and the context may be cancelled at any point.
* **Chunking**, **BulkWrite**, **BatchCheck**: the clients of the fan-out. The chunk loop runs in 64-bit
  arithmetic; bulk writes attribute each chunk's error to its tuples; batch checks are merged and
  refine one unchunked batch check; `ListRelations` rests on decimal printing (**Decimal**).
* **Transport**, **Retry**, **Backoff**, **Errors**, **Headers**, **CallPath**, **Client**: one request's
  way down the transport chain and back. Bodies, requests, the base transport and the observer are
  objects with positions, close counts and logs; the retry loop and the layers below it are methods
  over them, proved against the functions of module `Retry`, about which the laws of the loop are
  proved. Base outcomes, wait errors and `GetBody` errors are arbitrary traces; errors are trees of
  wrapped errors; durations are int64 nanoseconds with the float64 conversion written out.
* **Pagination**: the iterators as an object whose cursor outlives each range loop, against a consumer
  that may break after any item and against any server, then against servers over an append-only log.
* **Json**, **Rewrites**, **ModelCodec**, **ModelTypes**, **ObjectTarget**: the wire forms, on JSON value
  trees. A codec is a writer, a reader, the normal form a value takes by being written and read once, and
  the condition under which it comes back unchanged; pointers, slices and maps are combinators over it,
  and the recursive types (rewrites, parameter types) are proved by structural induction.

`dafny verify dfyconfig.toml` checks the whole project.

## What the proofs say about the documentation

* `runParallel` is documented not to call `fn(i)` when the context is cancelled before index i starts.
  `Fanout.CancellationDecides` proves what happens instead: exactly the indices past their context check
  at that moment run. The documented rule holds of a run if and only if main was not between an index's
  check and its launch, and no launched goroutine was still to call `fn` (`Fanout.DocumentedSkipMeans`).
  In a run where it fails, main is blocked on the full semaphore, nothing has been called, and one call
  more than the worker limit is still made after the cancellation (`Fanout.CancelledWhileBlocked`).
  A context cancelled before the call runs nothing (`Fanout.AlreadyCancelled`).
* `WriteTuples` documents a top-level error only when no request could be issued. That holds exactly of
  the calls that do not send a transaction: a transaction, with keys and a store, also returns the error
  of a request that was issued and answered (`BulkWrite.TopLevelErrorMeans`).
* `FirstError` is meant to detect a partial failure with one check. It does (`BulkWrite.FirstErrorMeans`),
  chunks that were never started included: they carry the context's error.
* The equal jitter is documented to wait in [d/2, d). That holds exactly when `MinWait * 2^attempt` fits an
  int64 and d is more than 1ns (`Backoff.JitterRangeMeans`; with d = 1 the wait is 1). The wait is in
  [1ns, MaxWait] exactly when the product fits (`Backoff.WaitInRangeMeans`), and every wait of every call
  is, exactly when the product before the last attempt does (`Retry.WaitsInRangeMeans`). With the default
  waits the product leaves int64 at attempt 34, which only a client with 36 attempts or more reaches
  (`Backoff.DefaultBackoffOverflows`). A call never waits longer than (MaxAttempts - 1) * MaxWait
  (`Retry.TotalWait`).
* `prepareBatchCheckItems` does not compare a generated correlation ID with the ones before it. With a
  fresh generator all IDs are distinct (`BatchCheck.PrepareMeans`); without that assumption they are
  distinct exactly when no generated ID repeats an earlier one (`BatchCheck.DistinctMeans`).
* The comment on `UnmarshalJSON` calls it the inverse of `MarshalJSON`. It is, exactly for objects whose
  first colon is missing or not their last character (`ObjectTarget.ReadBack`).
* The schema types are documented to round-trip losslessly. They do up to nil for empty in the members
  that `omitempty` drops, and exactly when there is no such empty collection
  (`ModelCodec.ModelRoundTrip`).
* An iterator's cursor survives a range, so ranging again starts with the page the first range stopped
  in and delivers some of its items a second time, exactly when the first range had delivered something
  of that page and the second delivers anything (`Pagination.RepeatMeans`). A drained `ChangesAll` leaves
  nothing to repeat (`Pagination.DrainedLeavesNothing`).
* `StreamedListObjects` yields an error for a response that breaks off only when it breaks off inside a
  value: cut between two lines, the stream just ends (`CallPath.BrokenStreamMeans`).

## Model

| member | source | states |
|---|---|---|
| Fanout.StepInv | openfga/parallel.go:27-49 | every step any goroutine, main or the environment can take keeps the invariant: phases agree with main's position, skipped indices form a suffix, the semaphore and the WaitGroup count exactly the indices that hold them, and each slot of errs agrees with the history of its index |
| Fanout.RunInv | openfga/parallel.go:27-49 | every state of every interleaving satisfies the invariant |
| Fanout.ReturnedOutcome | openfga/parallel.go:22-49 | whatever the interleaving, a returned run is the cut its schedule decides, namely the indices committed when the context was cancelled and all of them if it never was: indices below it ran fn exactly once and hold its result, the others never ran it and hold the context's error, each slot was written exactly once, the semaphore is empty and the WaitGroup zero |
| Fanout.CancellationDecides | openfga/parallel.go:34-46 | whatever happens after a cancellation, exactly the indices past their context check at that moment run, the one main is working on included, and all others get the error |
| Fanout.AlreadyCancelled | openfga/parallel.go:35-38 | a context cancelled before the call runs nothing and fills every slot with its error |
| Fanout.DocumentedSkipMeans | openfga/parallel.go:24-25 | no index that had not called fn at the cancellation calls it later, if and only if main was not between a check and its launch and no goroutine was still to call fn |
| Fanout.CancelledWhileBlocked | openfga/parallel.go:39-45 | a run in which the context is cancelled while main is blocked on the full semaphore and fn was never called, and Limit + 1 calls are still made |
| Fanout.ScheduleIndependent | openfga/parallel.go:34-48 | two returned runs with the same cut and context error return the same errors, whatever their schedules |
| Fanout.EveryCutHappens | openfga/parallel.go:34-48 | no cut is spurious: for every k and every context error some schedule returns exactly that outcome |
| Fanout.BoundedConcurrency | openfga/parallel.go:32-45 | in every reachable state the calls of fn that have begun and not stored their result are at most maxWorkers, at most one when maxWorkers is not positive, and the slots held are exactly the indices acquired and not yet released |
| Fanout.FullConcurrency | openfga/parallel.go:32-45 | the bound is tight: some schedule has min(n, maxWorkers) calls in progress at once |
| Fanout.StepMoves | openfga/parallel.go:35-47 | a step changes one index's phase, and the semaphore and WaitGroup by exactly what that change is worth |
| Fanout.StepDecreases | openfga/parallel.go:34-48 | every step, in any order, lowers an explicit measure |
| Fanout.RunsAreBounded | openfga/parallel.go:34-48 | no schedule is longer than 8n + 3 steps, so every schedule terminates |
| Fanout.Progress | openfga/parallel.go:39-47 | deadlock freedom: until the call has returned, main or some goroutine can move without help from the environment |
| Fanout.GoroutineStep | openfga/parallel.go:41-45 | a launched goroutine that has not finished is never blocked |
| Fanout.RunCompletes | openfga/parallel.go:27-49 | every run, however far it got, can be continued until it returns |
| Fanout.RunParallel | openfga/parallel.go:27-49 | the call under an arbitrary scheduler ends in the complete returned state of its schedule, with the cut and the context error that schedule decides, and returns its errs |
| Chunking.Chunk | openfga/tuples.go:168-176 | the loop in int64 arithmetic gives the spans of the recursive specification, with no overflow for any positive chunk size and up to 2^62 elements |
| Chunking.SpanAt | openfga/relationships.go:210-218 | span i starts at i times the size, is not empty, and is full unless it is the last |
| Chunking.SpanCount | openfga/tuples.go:170-176 | there are ceil(n / size) spans |
| Chunking.SpansPartition | openfga/tuples.go:168-176 | index j lies in span j / size and in no other |
| Chunking.BodiesArePrefix | openfga/tuples.go:178-180 | the first k chunk bodies, concatenated, are a prefix of the input, and all of them are the input: nothing is sent twice, reordered or left out |
| Decimal.AtoiItoa | openfga/relationships.go:268 | printing and parsing an index is the identity |
| Decimal.AtoiSigned | openfga/errors.go:126 | digits with or without a sign parse to their value, unless it is outside int64 |
| Decimal.AtoiRefuses | openfga/errors.go:126 | anything but digits after an optional sign is refused |
| Decimal.ItoaInjective | openfga/relationships.go:268 | different indices print differently |
| Decimal.IndexLength | openfga/relationships.go:256-258 | every index prints as 1 to 19 digits |
| Errors.IsMeansNode | openfga/transport_retry.go:180-184 | errors.Is finds a kind exactly when some node of the error tree has it |
| Errors.AsMeansNode | openfga/transport_retry.go:187-188 | errors.As finds a net error exactly when some node is one |
| Errors.RetryableMeans | openfga/transport_retry.go:176-189 | an error is retried exactly when no node of its tree is a context error and some node is a transient network failure |
| Errors.ParseRetryAfter | openfga/errors.go:117-144 | never negative, and a numeric value is capped so that its product fits an int64 |
| Errors.RetryAfterSeconds | openfga/errors.go:126-137 | a printed number of seconds means that many seconds, up to the ceiling |
| Errors.RetryAfterMeans | openfga/errors.go:121-144 | for every header value: nothing unless it is a positive number or a date ahead of now; seconds up to 100 years, a date as the time until it |
| Errors.Classify | openfga/errors.go:93-115 | nil exactly for 2xx, and every typed error still wraps the response's own error |
| Backoff.AcceptedMeans | openfga/transport_retry.go:49-66 | the configurations a client can end up with, over every list of options, are exactly the accepted ones |
| Backoff.MergeMeans | openfga/transport_retry.go:49-66 | exactly the fields that are set are taken over, the others are 3 attempts, 1s, 30s and {429}, and Retry-After and jitter stay on |
| Backoff.LastOptionWins | openfga/transport_retry.go:49-69 | the last retry option decides, and without one a client retries with the defaults |
| Backoff.Float64Exact | openfga/transport_retry.go:215 | the conversion is exact below 2^53 and never makes a positive wait zero |
| Backoff.UlpMeans | openfga/transport_retry.go:215 | the spacing around a value leaves 53 significant bits |
| Backoff.Float64Nearest | openfga/transport_retry.go:215 | the converted value is a multiple of the spacing, at most half a step away |
| Backoff.ScaleIsPower | openfga/transport_retry.go:215 | repeated doubling is multiplication by a power of two |
| Backoff.ComputeBackoff | openfga/transport_retry.go:200-227 | the method as written computes the specified wait |
| Backoff.RetryAfterWait | openfga/transport_retry.go:201-209 | with Retry-After every accepted client waits min(Retry-After, MaxWait), between 1ns and MaxWait |
| Backoff.JitteredWait | openfga/transport_retry.go:215-226 | without it the wait lies in [d/2, d) for d = min(MaxWait, MinWait * 2^attempt), is 1 when d is 1, and never leaves [1ns, MaxWait], while the product fits an int64 |
| Backoff.PlainWait | openfga/transport_retry.go:211-218 | without Retry-After and jitter the wait is the capped product, with 1s for a MinWait and no cap for a MaxWait that is not positive |
| Backoff.PreJitterGrows | openfga/transport_retry.go:211-218 | the wait before jitter never decreases from one attempt to a later one |
| Backoff.WaitInRangeMeans | openfga/transport_retry.go:200-227 | on every machine and for every draw the wait is in [1ns, MaxWait], if and only if the product fits an int64 |
| Backoff.JitterRangeMeans | openfga/transport_retry.go:219-225 | the documented jitter range [d/2, d) holds on all machines and draws if and only if the product fits an int64 and d > 1 |
| Backoff.DefaultBackoffOverflows | openfga/transport_retry.go:27-36 | the default waits, with 36 attempts, leave int64 at attempt 34 and not before; on a machine that converts to the minimum the wait is negative |
| Retry.LoopMeans | openfga/transport_retry.go:133-170 | the loop's closed form: it stops at the first attempt it does not go past, having waited once after every earlier one |
| Retry.UndisturbedRoundTrip | openfga/transport_retry.go:113-170 | with no injected failure: min(MaxAttempts, 1 + retryable prefix) calls, one wait fewer, and the last call's result |
| Retry.RetriedMeans | openfga/transport_retry.go:145-167 | attempts being left and neither the wait nor GetBody failing, a reply is followed by another call if and only if its status is a configured one, or it is an error with a transient network failure and no context error in its tree |
| Retry.CallsHaveBodies | openfga/transport_retry.go:136-141 | no replayed call is made once GetBody has failed |
| Retry.NoCallAfterFinalReply | openfga/transport_retry.go:145-158 | no call follows a status outside RetryableStatus, a context error anywhere in an error tree, or a failed wait |
| Retry.RoundTripResult | openfga/transport_retry.go:133-170 | the result is the last call's; a wait or body failure ends the trip without a response and without another call; the return after the loop is unreachable |
| Retry.WaitsMean | openfga/transport_retry.go:152-167 | the wait after a response with Retry-After is what it says up to MaxWait, after any other reply the backoff of that attempt |
| Retry.EachWait | openfga/transport_retry.go:152-167 | each wait of an accepted client whose backoff fits an int64 is in [1ns, MaxWait] |
| Retry.WaitsInRangeMeans | openfga/transport_retry.go:113-170 | every wait of every call of an accepted client is in [1ns, MaxWait], if and only if the product before its last attempt fits an int64 |
| Retry.TotalWait | openfga/transport_retry.go:113-170 | a whole call of any accepted client waits at most (MaxAttempts - 1) * MaxWait |
| Headers.AddAll | openfga/transport_headers.go:19-21 | adding a static header's values one by one appends them in order and touches no other key |
| Headers.ApplyStatic | openfga/transport_headers.go:13-24 | the loop over the header map gives the overlay, whatever order the map is ranged in |
| Headers.BuildTransport | openfga/openfga.go:177-197 | wrapping step by step gives auth, then static headers, then the observer, each only when configured |
| Headers.DecorateLayers | openfga/openfga.go:177-197 | the chain authorizes, then overlays the static headers, and the observer is shown exactly what the base is sent |
| Headers.Precedence | openfga/transport_headers.go:13-24 | at every key, for the whole chain: the bearer token replaces what the request carried, a non-empty request or bearer value keeps the static ones out, and otherwise the static values come once, in order |
| Transport.Dispatch | openfga/transport_observer.go:22-27 | one request through the layers: the base sees the decorated headers and the untouched body once, the observer is called once, and the body is closed once |
| Transport.ReplayableBody | openfga/transport_retry.go:91-111 | which bytes are replayed for every request, with the original body closed exactly once |
| Transport.RetryTransport.Send | openfga/transport_retry.go:135-143 | a clone with a fresh copy of the whole payload goes down the chain; the caller's request is not written |
| Transport.RetryTransport.Pass | openfga/transport_retry.go:134-168 | one pass of the loop is the specified pass, and a response that is not handed up was drained and closed exactly once |
| Transport.RetryTransport.CountedPass | openfga/transport_retry.go:134-168 | a pass adds exactly its calls, waits and responses to the account of the trip |
| Transport.RetryTransport.SettledPass | openfga/transport_retry.go:157-163 | all responses so far stay settled across a pass |
| Transport.RetryTransport.Run | openfga/transport_retry.go:133-170 | the loop makes exactly the specified trip, every call with the same decorated headers and the complete bytes |
| Transport.RetryTransport.AccountedTrip | openfga/transport_retry.go:113-170 | the body of RoundTrip: the logs of base, observer and timer grow by exactly the account of the specified trip |
| Transport.RetryTransport.RoundTrip | openfga/transport_retry.go:113-170 | the whole trip: every entry the base logs carries the same decorated headers and the whole body, which is what GetBody delivers, else what was unread of the request's own body; an unreadable body stops it before any call; the original body is closed once; every response the base produced is drained and closed exactly once except the one handed up, which is open and unread and is the reply the trip ended with |
| CallPath.BareDo | openfga/request.go:108-121 | the response handed up is still open exactly when there is no error, an API error comes with its response closed, an error of the chain comes wrapped and without a response, and the error is the specified one |
| CallPath.Consume | openfga/request.go:130-147 | taking a 2xx body closes it exactly once on every path and lifts the token only when there is no error |
| CallPath.Do | openfga/request.go:123-148 | per way a trip ends: the wrapped error of the chain without a response; the typed error of a response that is not 2xx; otherwise the copy error of a Writer or the decode error, and the decoded token exactly when there is none; every response of the call closed exactly once; every call of the base given the whole body |
| CallPath.DoNotify | openfga/request.go:150-167 | the callback fires exactly once when a response reached Do, with that response and its lifted token, on API and decode errors too, and never otherwise |
| CallPath.ReadStream | openfga/relationships.go:121-132 | the decoding loop hands the consumer the first items of the stream the body holds, up to the one it breaks on |
| CallPath.FailureIsLast | openfga/relationships.go:125-128 | only the last item of a stream can be an error |
| CallPath.BrokenStreamMeans | openfga/relationships.go:122-128 | a body that fails is told from one that ends, by some decoder, exactly when reading it comes to an unterminated value |
| CallPath.ValueLine | openfga/relationships.go:122-128 | what a line of the stream delivers: its value and then the next line's, or its failure and nothing more; at a closing bracket or brace the stream ends; an unterminated last line is decoded with the error the body ends in |
| CallPath.BlankLine | openfga/relationships.go:122-123 | a blank line delivers nothing |
| CallPath.Stream | openfga/relationships.go:100-134 | a failed call yields its error once; otherwise the consumer is handed exactly the first items of the final response's stream, nothing after a break, and the response is closed exactly once |
| BulkWrite.Attribute | openfga/tuples.go:181-189 | overwriting the spans of the failed chunks gives tuple j the error of chunk j / size, and leaves all keys in place |
| BulkWrite.BulkChunked | openfga/tuples.go:164-190 | the chunked call equals the one-line report for the errors of some cut of the chunks: one result per key in order, Err set exactly on failure |
| BulkWrite.SendRequest | openfga/tuples.go:130-150 | one send through the call path: every call of the base is given the encoding of the one body for that chunk (a write or a delete of exactly its keys, with the option of its kind, under the call's model or else the client's), every response is closed, and the error is that of the exchange with the store's write path |
| BulkWrite.BulkWrite | openfga/tuples.go:113-191 | in every mode one result per key in order with Err set exactly on failure. No store: all as written beside the error. A transaction: no error exactly when the body for all keys was answered 2xx, and every tuple shares the error. Chunked, 50 keys a request unless maxPerChunk is positive: tuple j was written exactly when its chunk was started and the body for that chunk answered 2xx, it shares the chunk's error, the context's when the chunk was not started; and the chunks went through one fan-out with maxParallel workers, else 10 |
| BulkWrite.OneBody | openfga/tuples.go:130-141 | there is exactly one request body for a chunk, and it is the one that is built |
| BulkWrite.KeysCarriedOnce | openfga/tuples.go:164-180 | the bodies of k started chunks, the ones whose deliveries decide the results, carry a prefix of the keys, all of them carry all keys: none is in two requests, left out or out of order |
| BulkWrite.StartedChunk | openfga/tuples.go:178-180 | a started chunk sends exactly its own slice of the keys |
| BulkWrite.SendMeans | openfga/tuples.go:143-150 | a send gives no error exactly when the exchange of that chunk's body with the store's write path ended with a 2xx answer to its last call |
| BulkWrite.ChunkMeans | openfga/tuples.go:178-180 | a chunk has no error exactly when it was started and delivered |
| BulkWrite.TupleMeans | openfga/tuples.go:178-190 | tuple j keeps its key, succeeded exactly when its chunk was started and delivered, has an error exactly when it failed, and shares that error with its chunk |
| BulkWrite.Failed | openfga/tuples_types.go:139-152 | the failed results of both slices, in order |
| BulkWrite.FirstError | openfga/tuples_types.go:154-167 | the error of the first result that has one, over both slices |
| BulkWrite.FailedOfMeans | openfga/tuples_types.go:139-152 | exactly the failed results are picked, the earliest first |
| BulkWrite.FailedInOrder | openfga/tuples_types.go:139-152 | the results at exactly the failed indices, each once, in increasing order |
| BulkWrite.ReadersAgree | openfga/tuples_types.go:124-167 | on results where Err is set exactly on failure, FirstError is nil exactly when Failed is empty, and otherwise the error of Failed's first element |
| BulkWrite.FirstErrorMeans | openfga/tuples_types.go:154-167 | over a chunked call: FirstError is nil exactly when no chunk has an error, and agrees with Failed |
| BulkWrite.TopLevelErrorMeans | openfga/tuples.go:94-97 | that the top-level error is non-nil only when no request was issued holds of every run exactly when the call does not send a transaction; in chunked mode with a store there is no top-level error |
| BatchCheck.Prepare | openfga/relationships.go:151-168 | every item keeps its check and gets its ID, or the error is that of the first rejected item |
| BatchCheck.PreparedMeans | openfga/relationships.go:154-165 | every check stays at its place, an item's own ID stays, and an empty one becomes the generated one |
| BatchCheck.PrepareMeans | openfga/relationships.go:146-168 | with a fresh generator: refused exactly when caller-supplied IDs repeat, otherwise all IDs are non-empty and pairwise distinct |
| BatchCheck.DistinctMeans | openfga/relationships.go:155-164 | with any generator: the IDs of an accepted list are distinct exactly when no generated ID repeats an earlier one |
| BatchCheck.MergeInto | openfga/relationships.go:236-240 | assigning a chunk's entries one by one gives the merged map, in whatever order they are ranged |
| BatchCheck.SlotMeans | openfga/relationships.go:221-235 | what a chunk leaves behind: the decoded results of a 2xx answer to the one body for its items, under the model and consistency of the request, else the call, else the client, and nothing otherwise; and no error exactly when that answer decoded |
| BatchCheck.FanOut | openfga/relationships.go:220-235 | the slots and errors after the fan-out are those of some cut of the chunks, each started chunk left what its exchange leaves, and the fan-out had maxParallel workers, else 10 |
| BatchCheck.BatchCheckAll | openfga/relationships.go:185-242 | setup failures give no response; otherwise one fan-out over chunks of maxChecksPerBatch items, else 50, the merge of the slots and the join of the errors; and without an error, a server that answers every request of this store, model and consistency by its items gets the response of one unchunked batch check over all prepared items |
| BatchCheck.HonestChunk | openfga/relationships.go:221-235 | under such a server a chunk without an error left the results of a batch check of exactly its own items |
| BatchCheck.JoinMeans | openfga/relationships.go:241 | the joined error is nil exactly when all are, and wraps every one that is not |
| BatchCheck.AnswersAt | openfga/relationships.go:170-176 | with distinct IDs a batch's result map has exactly the items' IDs, each with its own item's answer |
| BatchCheck.BatchRefinesSingle | openfga/relationships.go:170-242 | for every chunk size, worker limit and schedule, a nil error means the merged map is the map of one unchunked batch check over all items |
| BatchCheck.PartialResults | openfga/relationships.go:178-184 | with failed chunks that left nothing behind, the merged map is the single-request map over the items of the succeeded chunks |
| BatchCheck.ChunkFailures | openfga/relationships.go:221-241 | the error is nil exactly when every chunk was started and succeeded, and a failed chunk leaves entries only if its 2xx body failed to decode |
| BatchCheck.ChunkIdsDisjoint | openfga/relationships.go:174-176 | IDs of different chunks differ, so merging overwrites nothing |
| BatchCheck.SucceededItemAnswered | openfga/relationships.go:178-182 | every item of a chunk without an error has its own answer in the merged map, whatever other chunks left |
| BatchCheck.RelationIds | openfga/relationships.go:256-268 | no correlation ID is generated, none repeats, and each has 1 to 19 digits |
| BatchCheck.BuildChecks | openfga/relationships.go:254-270 | repeated relations are rejected, otherwise relation i is checked under ID i |
| BatchCheck.ListRelations | openfga/relationships.go:244-288 | no list with an error; and without one, against an honest server, exactly the supplied relations whose check is allowed, in input order |
| BatchCheck.PickedMeans | openfga/relationships.go:281-286 | a relation is listed exactly when its index has an allowed entry: a missing entry reads as not allowed |
| BatchCheck.ListRelationsMeans | openfga/relationships.go:244-288 | on success, exactly the supplied relations whose check is allowed, in input order, for every chunk size, worker limit and schedule |
| Pagination.Iterator.Range | openfga/pagination.go:105-127 | one range loop does what the range specification says and leaves the cursor it says for the next one |
| Pagination.Deliver | openfga/pagination.go:113-117 | the inner loop yields the page's items up to and including the one the consumer breaks on |
| Pagination.DeliversWhatItFetched | openfga/pagination.go:17-34 | against any server, what is delivered is a prefix of what was fetched, and all of it unless the consumer broke |
| Pagination.FetchOnlyWhenDelivered | openfga/pagination.go:17-34 | against any server, at every fetch all items of all earlier pages were delivered |
| Pagination.StopsAtOnce | openfga/pagination.go:24-28 | after a break nothing more is yielded: exactly one item beyond the accepted ones, and never more than accepted otherwise |
| Pagination.NothingAfterTheEnd | openfga/pagination.go:17-34 | a break or an error is the last event of a range: no fetch and no yield follows |
| Pagination.ErrorIsLast | openfga/pagination.go:19-23 | an error is yielded only when a fetch failed, and then once, last |
| Pagination.FetchesBounded | openfga/pagination.go:100-128 | ChangesAll against any server at all makes at most one fetch more than the items it yields, so it ends for every consumer that accepts finitely many |
| Pagination.TokensAdvance | openfga/pagination.go:118-125 | within a range no fetch after the first sends an empty token, and ChangesAll never sends the token it sent just before |
| Pagination.NextFetchMeans | openfga/pagination.go:24-32 | against any server, another fetch follows a page exactly when the consumer took all of it and it has a token, with items or without; ChangesAll wants items and another token too; and it sends the page's token |
| Pagination.LogPage | openfga/pagination.go:118-125 | on a server over a log, when a range goes on after a page, for both stopping rules |
| Pagination.Contiguous | openfga/pagination.go:91-128 | however the log grows between fetches, a range delivers a contiguous run of it from its cursor, and a range that ends by itself has delivered all its last fetch could see |
| Pagination.PagesMeans | openfga/pagination.go:94-99 | the page count is the ceiling of the division |
| Pagination.FixedLogFetches | openfga/pagination.go:94-125 | on a log that stands still: ChangesAll delivers the rest with ceil(m / p) + 1 fetches, All and ReadAll with max(1, ceil(m / p)) |
| Pagination.Stretches | openfga/pagination.go:100-127 | across breaks and ranges, each range delivers a stretch of the log |
| Pagination.RepeatsOnlyRefetched | openfga/pagination.go:13-17 | an item two ranges deliver lies in the page the earlier one stopped in |
| Pagination.RepeatMeans | openfga/pagination.go:13-32 | two consecutive ranges deliver an item in common exactly when the first delivered something of its last page and the second delivers anything |
| Pagination.DrainedLeavesNothing | openfga/pagination.go:118-123 | a ChangesAll range that ends by itself leaves the cursor where its delivered stretch ends |
| Pagination.NothingSkipped | openfga/pagination.go:12-35 | across any sequence of breaks and ranges every item up to where any range got is delivered by some range |
| Pagination.LogServes | openfga/pagination.go:94-99 | for every log there is a server with offset tokens as assumed above: its tokens are decimal offsets |
| Json.SliceLaw | openfga/model.go:40-42 | a slice of lawfully coded elements comes back element by element, nil as nil |
| Json.OmitSliceLaw | openfga/model.go:59-63 | under omitempty an empty slice comes back as nil |
| Json.OmitMapLaw | openfga/model.go:51-55 | under omitempty an empty map comes back as nil, any other entry by entry |
| Json.CodecMeans | openfga/model.go:3-8 | of any lawful codec: one round trip is the normal form and a fixed point, it is the identity exactly on canonical values, and wire forms are equal exactly when normal forms are |
| Rewrites.UsersetMembers | openfga/model.go:13-20 | which member carries which branch |
| Rewrites.UsersetWire | openfga/model.go:13-24 | the wire form of a rewrite: each branch that is set under its own name, and nothing else |
| Rewrites.UsersetsWire | openfga/model.go:39-42 | operands are written under child, in order, null for a nil slice |
| Rewrites.DifferenceWire | openfga/model.go:44-48 | base and subtract are written under their own names |
| Rewrites.ObjectRelationWire | openfga/model.go:26-30 | object and relation are written as strings under their own names, without the empty ones |
| Rewrites.TupleToWire | openfga/model.go:32-37 | tupleset and computedUserset are written under their own names |
| Rewrites.UsersetRoundTrip | openfga/model.go:10-48 | every rewrite, however deeply nested, comes back from the wire exactly as it was |
| Rewrites.BuildMeans | openfga/model.go:107-149 | what builder calls make has exactly one branch set at every depth, names no object, and reads as the same calls |
| Rewrites.EveryRewriteIsBuilt | openfga/model.go:107-149 | every such rewrite is made by builder calls |
| Rewrites.ThisWire | openfga/model.go:116-117 | the wire form of This |
| Rewrites.ComputedUsersetWire | openfga/model.go:119-123 | the wire form of ComputedUserset |
| Rewrites.TupleToBuilderWire | openfga/model.go:125-133 | the wire form of TupleTo |
| Rewrites.UnionWire | openfga/model.go:135-138 | the wire form of Union |
| Rewrites.IntersectionWire | openfga/model.go:140-143 | the wire form of Intersection |
| Rewrites.ExclusionWire | openfga/model.go:145-149 | the wire form of Exclusion: the first argument is the base |
| Rewrites.BuiltRoundTrip | openfga/model.go:10-12 | after the wire there is still one branch at every depth and the same calls, and no two expressions share a wire form |
| ModelCodec.ParamLaw | openfga/model.go:96-99 | parameter types with element types nested to any depth come back in normal form |
| ModelCodec.RelationMetadataLawful | openfga/model.go:59-63 | relation metadata obeys the codec law |
| ModelCodec.MetadataLawful | openfga/model.go:51-55 | type metadata obeys the codec law |
| ModelCodec.ReferenceLawful | openfga/model.go:68-73 | user types come back exactly |
| ModelCodec.ConditionLawful | openfga/model.go:86-91 | conditions obey the codec law |
| ModelCodec.TypeDefinitionLawful | openfga/authorizationmodels_types.go:14-18 | type definitions obey the codec law |
| ModelCodec.ModelRoundTrip | openfga/authorizationmodels_types.go:4-9 | any model comes back up to nil for empty, exactly when it is canonical, unchanged by further rounds; and wire forms are equal exactly when models differ in nil for empty only |
| ModelCodec.ModelWire | openfga/authorizationmodels_types.go:4-9 | which value is written under which member of a model, and when |
| ModelCodec.TypeDefinitionWire | openfga/authorizationmodels_types.go:14-18 | which value is written under which member of a type definition, and when |
| ModelCodec.MetadataWire | openfga/model.go:51-55 | which value is written under which member of type metadata, and when |
| ModelCodec.RelationMetadataWire | openfga/model.go:59-63 | which value is written under which member of relation metadata, and when |
| ModelCodec.ReferenceWire | openfga/model.go:68-73 | which value is written under which member of a user type, and when |
| ModelCodec.SourceInfoWire | openfga/model.go:81-83 | the file is written unless it is empty |
| ModelCodec.ConditionWire | openfga/model.go:86-91 | which value is written under which member of a condition, and when |
| ModelCodec.ParamWire | openfga/model.go:96-99 | which value is written under which member of a parameter type, and when |
| ModelCodec.ConditionMetadataWire | openfga/model.go:102-105 | which value is written under which member of condition metadata, and when |
| ModelTypes.RewriteReads | openfga/model.go:13-48 | a tree is read as a rewrite exactly when every member it has, at every depth, is null or of its type |
| ModelTypes.ParamReads | openfga/model.go:96-99 | the same for parameter types |
| ModelTypes.ModelReads | openfga/authorizationmodels_types.go:4-18 | the same for whole models |
| ModelCodec.RewritesSurvive | openfga/authorizationmodels_types.go:14-18 | the rewrite of every relation of every type comes back untouched at its place |
| ObjectTarget.Colon | openfga/relationships_types.go:119 | the first colon, or none |
| ObjectTarget.FGAObjectRelation.MarshalJSON | openfga/relationships_types.go:117-135 | both branches write the specified object |
| ObjectTarget.FGAObjectRelation.UnmarshalJSON | openfga/relationships_types.go:140-161 | what a tree makes of the target, with the target unchanged on failure |
| ObjectTarget.TargetWire | openfga/relationships_types.go:117-135 | the text before the first colon is written as type, the text after it as id, and the relation, without the empty ones |
| ObjectTarget.ReadableMeans | openfga/relationships_types.go:140-161 | what can be read: a string, null, or an object whose three members are strings or null where they are there |
| ObjectTarget.ReadBack | openfga/relationships_types.go:117-161 | written and read back, a target survives exactly when its object's first colon is missing or not its last character |
| ObjectTarget.WrittenBack | openfga/relationships_types.go:117-161 | a wire object survives reading and writing exactly when its type has no colon |
| ObjectTarget.OneRoundTripSettles | openfga/relationships_types.go:117-161 | for every target, ids with colons and empty types included, one round trip reaches a fixed point with the same wire form |
| ObjectTarget.BareString | openfga/relationships_types.go:137-145 | a bare string reads as the object it spells, keeps the relation, and is written structured from then on |

## Left out

- `http.Client`: redirects, its timeout error, TLS, timers and URL building; of its errors the wrapping in `*url.Error` is modelled. The base transport is an arbitrary trace of replies that keeps the `RoundTripper` contract: a response or an error, and the request body closed.
- `GetBody` is assumed to return a reader over the complete body, as `net/http` documents.
- JSON text: syntax, UTF-8 repair, case-insensitive member names and repeated members. Values are JSON trees; whether a response body decodes is arbitrary.
- The HTTP-date form of Retry-After (section 10.2.3 of RFC 9110) and the clock: a parameter that gives an optional duration.
- The random sources: jitter draws and generated correlation IDs are parameters. Header names are taken in canonical form.
- OAuth2 and private-key JWT: token caching and signing are in libraries. Of the auth layers the bearer layer is modelled.
- `fn` that panics inside `runParallel`, and a `fn` that never returns.
- Inside a fan-out the chunks' requests are described by values, the exchange of a request number, a path and a body with everything outside, and not by heap objects shared between goroutines; `BulkWrite.SendRequest` is one such request through the call path's objects.
- Slices longer than 2^62 elements, which do not fit in memory: the chunk loop's sums could overflow there.
- `Iterator.Range` is observed for a limited number of fetches, so that a list server that never returns an empty token can be talked about; `FetchesBounded` shows that ChangesAll needs no limit.
- The three iterators that stop on an empty token only (`All` twice and `ReadAll`) are one rule of one class; their item types and request options play no part.
- Errors.Classify: does not carry the code and message decoded from the body on a best-effort basis, nor the RetryAfter field of a rate-limit error, whose value is that of `ParseRetryAfter`.
- CallPath.Stream: reads one JSON value per line, as NDJSON has it; values spread over several lines, several values on one line and the envelope type are not modelled. How a single line decodes is a parameter.
- The `dsl` module, environment loading, ULID and URL checks, scope splitting, User-Agent, getters and the single-request service methods: they would add easy members only.
- The server's meaning of rewrites and conditions is not part of this model.
