# Verified model of wasmvm's boundary code

wasmvm lets a Cosmos SDK chain, written in Go, run CosmWasm contracts in a virtual machine written in
Rust. This project models the code between the two and proves what it promises. Nothing here was
executed: `dafny verify dfyconfig.toml` checks the proofs.

## What is modelled

**The iterator protocol.** A contract call takes a call ID, every scan stores a Go iterator in the
call's frame and hands Rust a reference to it, and the end of the call removes the frame and closes
what was in it. `IteratorFrames` is the table, as a class and as its specification. `Protocol` is the
machine in which any number of calls interleave: every mutex-guarded body is one step, the use of a
retrieved iterator and each turn of the close loop are steps of their own. `Isolation` shows that
this machine refines one table-free session per call, and `EndToEnd` that a session delivers the
records of its iterators in order. `Refusals` is about the iterators that the frame limit refuses.

**MemDB iterators.** `Traversal` is the six-way switch and the stateful visitor; `Ranges` is what
they have to agree with. `Snapshot` is the concurrent machine of writers, producer goroutine, bounded
channel, read lock, consumer and cancellation, and `ReadLock` says how long an iterator keeps writers
out. `FullRuns` puts protocol and database together: the iterators that calls pass around are cursors
of that machine. `Progress` says that a receive and a close loop come to their end there, and
`SampleRun` is one such run, step by step.

**Ownership of vectors.** `Memory` is a heap of buffers that must be destroyed exactly once; freeing
or reading a buffer that is not alive counts as a fault. `Callbacks` (Go) and `Storage` (Rust) are the
two sides of every callback. `Invocations` describes an arbitrary contract call, whose queries may run
further calls to any depth; `ContractRun` is its effect on the tables and what it observes, `Calls` the
whole call through both languages, `Analysis` a call that returns two vectors. `MockStore` is the
repository's own store and meter.

**Sizes, gas and transports.** `Utf8` is the encoding of texts, `LossyText` what Rust makes of broken
ones. `JsonStrings`, `JsonScalars` and `JsonText` are Go's JSON printer with a reader that undoes it,
`JsonEscapes` its escapes character by character; `IbcMessages` are the size estimates, and
`IbcReading` gets every message back out of its text by the names of its fields. `GasRuns` and
`ResponseGas` are the gas accounts, `Transports` the byte views, the pinned list and the
comma-separated lists.

## Main results

- `FullRuns.ScansDeliverSnapshots`: in every interleaving of contract calls, writers, goroutines and
  closes, the ID that a scan returns delivers, record by record, the sorted or reversed key range that
  the scan asked for, in the lexicographic order of bytes, of the database as it was when the iterator
  was created.
- `Protocol.TablesAgree`, `Protocol.NoUseAfterClose`, `Protocol.ClosedExactlyOnce`: over every
  interleaving, the tables of the two languages stay coupled, nothing is used after its close, and
  every accepted iterator is closed exactly once, unless a Close before it in its frame panics.
- `Refusals.ClosedIffRoom`: in every run, the iterator that a scan opens is closed if and only if the
  call's frame had room for it.
- `Isolation.CallsAreIsolated`: every call observes what it would observe alone.
- `Snapshot.IteratorDeliversSnapshot`, `Snapshot.CloseTerminates`, `Progress.NextIsServed`,
  `ReadLock.WriterGetsThrough`: an iterator shows the database as it was at its creation, closing it
  and waiting for its next item end under every schedule, and writers are kept out for exactly as long
  as the channel cannot take the rest of some range.
- `Calls.Instantiate`: one contract call through both languages, for every contract behaviour, with
  nested calls, and for every outcome: what the caller is told, ownership, frames, closes, gas and
  observations in one contract.
- `JsonText.PrintedMeans`, `JsonText.PredictionExactness` with the methods of `IbcMessages` and the
  readers of `IbcReading`: the size estimates against a printer whose text gives the message back.
- `LossyText.BadStartReplaced`, `LossyText.GoodStartKept`, `LossyText.CutText`: which error texts reach
  the virtual machine, and what becomes of the others.

## Where the code and its promise part

Each of these is a lemma or contract that says exactly when the promise holds.

- The comments on `MemDB.Iterator` say that the read lock is held until the iterator is closed. It is
  held until the goroutine has finished. Without a further Next or Close the lock goes if and only if
  at most 64 items are undelivered (`ReadLock.LockCanGo`), for a fresh iterator if and only if its
  range has at most 65 items (`ReadLock.FreshIterator`); `Snapshot.WriteWhileIteratorIsOpen` is such a
  run. Conversely, a write beside a larger scan waits forever (`ReadLock.ScanThenWriteWaits`).
  Deliveries come from the snapshot in any case.
- `indexToIteratorID` accepts one index more than `iteratorIdToIndex` inverts
  (`IteratorFrames.IdsRoundTrip`); the frame limit of 32768 keeps that out of reach
  (`IteratorFrames.StoreThenRetrieve`, `IteratorFrames.HugeLimitLosesIterators`).
- `types/store.go` says that the caller must close an iterator. An iterator is closed by the end of its
  call if and only if the call's frame held fewer than 32768 when it was opened
  (`Refusals.ClosedIffRoom`); a call that scans more often leaves the others open
  (`Refusals.LimitLeavesOpen`). Over a MemDB such an iterator, if more than 64 of its items are
  undelivered, keeps every writer out for good, also when its call has ended
  (`Refusals.RefusedLocksForever`).
- When a Close panics, the iterators behind it in the frame are not closed (`Protocol.ClosedExactlyOnce`,
  `IteratorFrames.FrameTable.EndCall`).
- Call IDs are distinct and non-zero if and only if fewer than 2^64 calls were started
  (`IteratorFrames.CallIdsUnique`).
- A result or message of 2 GiB or more does not reach Go intact, since its length is cast to a C int;
  if and only if the cast turns negative GoBytes panics and the vector is never destroyed
  (`Calls.TakeResult`, `Calls.Instantiate`, `Analysis.AnalyzeCode`, `Transports.ViewsRoundTrip`).
- The mock gas meter is set back to zero when it overflows (`GasRuns.MockMeterMonotone`). For any meter
  the reported gas exceeds the advance if and only if 2^64 for every reporting callback in which the
  meter went down is more than what went unreported (`GasRuns.ReportsAddUp`);
  `GasRuns.OverflowOverstatesReports` is such a run.
- The estimate for a string misses bad UTF-8 bytes and U+2028 and U+2029
  (`JsonStrings.StringSizeExactness`); the one for integers misses the smallest (`JsonScalars.ExpectedJSONSizeInt`).
- The deserialization charge is the price if and only if the 64-bit product fits
  (`ResponseGas.ChargeIsPrice`). Used and remaining gas keep their sum if and only if the price is not
  more than what remains (`ResponseGas.DeserializeResponse`), which can fail when gas was used
  externally (`ResponseGas.ExternalGasUnderflows`).
- A list of pinned checksums arrives as it was if and only if all have 32 bytes; other lists are cut
  silently (`Transports.SyncPinnedCodes`). A set of entry points arrives if and only if it is not empty
  and no name has a comma; the empty set arrives as one empty name (`Transports.CsvOfSet`).

## Model

| member | source | states |
|---|---|---|
| `IteratorFrames.IdsRoundTrip` | internal/api/iterator.go:105-124 | the two conversions invert each other on every valid ID, and on an index if and only if it is below MaxInt32 |
| `IteratorFrames.StoreThenRetrieve` | internal/api/iterator.go:62-101 | with a limit of at most MaxInt32 a stored iterator is found under its fresh ID, all earlier ones are still found, other calls see no change, and the append-then-fail branch is unreachable |
| `IteratorFrames.HugeLimitLosesIterators` | internal/api/iterator.go:62-81 | beyond MaxInt32 an appended iterator gets no ID, or one that no lookup accepts |
| `IteratorFrames.CallIdsUnique` | internal/api/iterator.go:28-33 | call IDs are distinct and non-zero if and only if fewer than 2^64 calls were started |
| `IteratorFrames.FrameTable.StartCall` | internal/api/iterator.go:28-33 | the new counter value is returned and nothing else changes |
| `IteratorFrames.FrameTable.RemoveFrame` | internal/api/iterator.go:38-45 | the frame, or an empty one, is returned and no longer in the table |
| `IteratorFrames.FrameTable.EndCall` | internal/api/iterator.go:48-55 | the frame is gone and every iterator in it, up to one whose Close panics, has been closed as often as it occurred there, no other one at all |
| `IteratorFrames.FrameTable.StoreIterator` | internal/api/iterator.go:62-81 | the table becomes the specified one, with its ID or one of the two errors |
| `IteratorFrames.FrameTable.RetrieveIterator` | internal/api/iterator.go:84-101 | the iterator is found exactly when call, ID and frame length allow it |
| `Protocol.TablesAgree` | libwasmvm/src/storage.rs:107-113 | in every reachable state a running call's Rust IDs are 0..n-1, its frame has length n, at most the limit, and ID k resolves to frame slot k; call IDs are distinct and non-zero |
| `Protocol.NoUseAfterClose` | internal/api/iterator.go:38-101 | in every reachable state no iterator was closed twice and none that is about to be used or closed was closed |
| `Protocol.ClosedExactlyOnce` | internal/api/iterator.go:48-55 | when all calls have ended the frame map is empty and exactly the iterators that the close loops reached were closed, once each; unless some Close panicked these are all the accepted ones |
| `Refusals.ClosedIffRoom` | internal/api/iterator.go:66-69 | in every run in which all calls have ended and no Close panicked, the iterator that a scan opened was closed once if the call's frame was below the limit at that scan, and otherwise never |
| `Refusals.LimitLeavesOpen` | internal/api/iterator.go:66-69 | for every n there is a run of one call with n scans after which the first 32768 iterators were closed and the others were not |
| `Refusals.RefusedLocksForever` | internal/api/callbacks.go:257-262 | a refused iterator with more than 64 undelivered items makes every write wait, in every further run of calls, goroutines and closes |
| `Refusals.ScanIsTold` | libwasmvm/src/storage.rs:66-114 | in every run a scan is told to have failed if and only if the store panicked, gets the next number while the frame has fewer than 32768 iterators, and otherwise the limit |
| `Refusals.LookupIsTold` | libwasmvm/src/storage.rs:116-146 | in every run an ID leads to that place of the call's frame, or there is no such iterator |
| `Protocol.StepKeeps` | internal/api/callbacks.go:227-363 | every step of every call keeps the coupling invariant |
| `Isolation.StepRefines` | internal/api/iterator.go:28-101 | a step of the machine is the same step of its call's session and invisible to every other |
| `Isolation.CallsAreIsolated` | internal/api/lib.go:248-252 | for every interleaving, a call's own events are a run by themselves and the call observes the same IDs, records and errors |
| `Isolation.InternalErrorsNeverOccur` | libwasmvm/src/storage.rs:107-113 | in no run is an accepted iterator without an ID, does the u32 count overflow, carry a reference call ID zero, or a reference in Rust's table find no iterator |
| `EndToEnd.NextDeliversRecords` | libwasmvm/src/storage.rs:116-146 | in every interleaving the i-th next, next_key or next_value on an ID carries the i-th record of that scan's iterator, projected as asked, then None forever |
| `FullRuns.StepKeeps` | internal/api/callbacks.go:227-363 | every action of calls, writers, goroutines and closes keeps the invariants of protocol and database and the link between iterators and cursors |
| `FullRuns.StepShadows` | internal/api/callbacks.go:274-363 | what a call reads off a cursor is the step that the protocol takes on its abstract iterator |
| `FullRuns.RunsAreProtocolRuns` | internal/api/iterator.go:28-101 | every run over real cursors is a run of the protocol |
| `FullRuns.ReceiveMoves` | internal/api/testdb/memdb_iterator.go:125-134 | Next on a cursor takes what is still to come to its tail |
| `FullRuns.ScansDeliverSnapshots` | libwasmvm/src/storage.rs:66-146 | in every interleaving of calls, writers, goroutines and closes, the answers on the ID that a scan got are the records of the range that the scan asked for, in its order, of the database as it was when the scan's cursor was created, then None; the records are those within the bounds, sorted, in the lexicographic order of bytes |
| `SampleRun.OneRecordRun` | libwasmvm/src/storage.rs:66-146 | a run that meets all that the theorem asks for: created, primed, scanned, one record read, the end seen |
| `FullRuns.ClosedIsDrained` | internal/api/testdb/memdb_iterator.go:106-112 | an iterator counted as closed has been drained, holds no item, and its goroutine has closed the channel |
| `ByteStrings.LessMeans` | internal/api/testdb/memdb.go:22-27 | the recursive comparison is the lexicographic order: behind a common start one key ends or has the smaller byte |
| `Ranges.RangeOfCharacterized` | types/store.go:6-22 | a range query has exactly the stored items with a key in [start, end), strictly ordered in the direction asked for, all by the lexicographic order of bytes |
| `Ranges.LookupMeans` | internal/api/testdb/memdb.go:66-70 | the answer for a key is a value if and only if the sorted content holds that pair |
| `Ranges.PutCorrect` | internal/api/testdb/memdb.go:100-102 | inserting keeps the order and changes the answer for one key only |
| `Ranges.RemoveCorrect` | internal/api/testdb/memdb.go:122-124 | deleting keeps the order and forgets one key only |
| `Traversal.WalkIsRange` | internal/api/testdb/memdb_iterator.go:52-93 | each of the six cases with its visitor sends exactly the requested range, for all bounds |
| `Traversal.RunWalk` | internal/api/testdb/memdb_iterator.go:52-75 | the visitor with its mutable skipEqual sends what its specification says |
| `Traversal.Traverse` | internal/api/testdb/memdb_iterator.go:46-97 | an undisturbed traversal sends the range of the tree, forward or reversed |
| `Snapshot.StepKeeps` | internal/api/testdb/memdb_iterator.go:34-134 | every step of writers, producers, consumers and cancellation keeps the invariant; an unfinished producer holds the lock and so the database is unchanged |
| `Snapshot.IteratorDeliversSnapshot` | internal/api/testdb/memdb_iterator.go:34-134 | all that an iterator delivers is a prefix of the range of the database at its creation, complete if it ends without being closed |
| `Snapshot.CloseTerminates` | internal/api/testdb/memdb_iterator.go:106-112 | until Close is done one of its steps is enabled, and it takes at most a fixed number of them under every schedule |
| `Progress.NextIsServed` | internal/api/testdb/memdb_iterator.go:98-134 | while a receive is pending it can be taken or the goroutine can move, and after at most a fixed number of its steps it can be taken, under every schedule |
| `Progress.CloseLoopEnds` | internal/api/iterator.go:48-55 | from every world a call in its close loop gets to its end by its own steps and those of the goroutines it closes |
| `Snapshot.ClosedForever` | internal/api/testdb/memdb_iterator.go:106-134 | a closed iterator is invalid forever and delivers nothing more |
| `Snapshot.EmptyIsRefused` | internal/api/testdb/memdb.go:85-180 | in every run from a database without empty keys there is never an empty key or an iterator with an empty bound |
| `Snapshot.WriteWhileIteratorIsOpen` | internal/api/testdb/memdb.go:164-171 | a run in which a write succeeds while an iterator is open and valid, against the comment on Iterator |
| `ReadLock.WritersWait` | internal/api/testdb/memdb_iterator.go:46-97 | while more than 64 items of an open iterator are undelivered, no write succeeds in any run without a step of its owner |
| `ReadLock.LockCanGo` | internal/api/testdb/memdb.go:164-171 | an iterator's lock can go without a further Next or Close if and only if it is being closed or at most 64 items are undelivered |
| `ReadLock.WriterGetsThrough` | internal/api/testdb/memdb.go:85-119 | the goroutines alone let a writer through if and only if that holds of every iterator |
| `ReadLock.FreshIterator` | internal/api/testdb/memdb_iterator.go:34-103 | for an iterator as its constructor returns it that is so if and only if the range has at most 65 items |
| `ReadLock.ScanThenWriteWaits` | internal/api/testdb/memdb.go:85-119 | a write beside a fresh iterator over more than 65 items waits in every run in which the iterator is neither used nor closed |
| `Memory.VectorHeap.New` | libwasmvm/src/memory.rs:220-251 | the vector owns a fresh buffer with the data, or none for a Vec without capacity; every other vector keeps its content |
| `Memory.VectorHeap.Consume` | libwasmvm/src/memory.rs:273-285 | consuming an owned vector returns its content and ends exactly its buffer; consuming it without a buffer alive is a fault |
| `Memory.VectorHeap.NewCopy` | libwasmvm/src/memory.rs:294-311 | nil, empty and data become none, a vector without buffer and a fresh copy |
| `Memory.VectorHeap.FromGo` | internal/api/memory.go:48-61 | the vector's content is the Go slice, nil kept apart from empty |
| `Memory.VectorHeap.CopyAndDestroy` | internal/api/memory.go:63-76 | Go gets a copy and exactly that buffer is gone, unless the length makes GoBytes panic, which leaves it alive |
| `Memory.Copy` | internal/api/memory.go:72-76 | Go's copy is the content if and only if it is shorter than 2^31 bytes |
| `Callbacks.CGet` | internal/api/callbacks.go:153-179 | the guard on the output slot, the panic codes, the reported gas and the value as a fresh vector, nil kept apart from empty |
| `Callbacks.CWrite` | internal/api/callbacks.go:182-224 | code, meter and reported gas of cSet and cDelete, for return and panic |
| `Callbacks.BuildIterator` | internal/api/callbacks.go:141-150 | the reference names the call and the new ID, or the table's error is passed on |
| `Callbacks.CScan` | internal/api/callbacks.go:227-271 | for every store answer and order: code, gas, table, reference and error vector; no live vector is overwritten |
| `Callbacks.CNext` | internal/api/callbacks.go:274-313 | for every reference and iterator fate: end as two none vectors, record as two fresh vectors, the iterator advanced, gas reported only without panic |
| `Callbacks.CNextPart` | internal/api/callbacks.go:326-363 | the same for one of key and value |
| `Callbacks.CAddress` | internal/api/callbacks.go:381-433 | address, error text and panic each reach their own slot; an empty address is a panic |
| `Callbacks.CValidateAddress` | internal/api/callbacks.go:436-457 | acceptance, error text and panic |
| `Callbacks.CQueryExternal` | internal/api/callbacks.go:475-503 | response, serialization error and panic, with the gas used |
| `Utf8.LossyRepairs` | libwasmvm/src/error/go.rs:73-81 | the lossy conversion always gives UTF-8, and its input if and only if that was UTF-8 |
| `LossyText.EncodeMeans` | libwasmvm/src/error/go.rs:73-81 | the number of bytes of a character, the marks of its first and further bytes, and the number they stand for |
| `LossyText.WellFormedMeans` | libwasmvm/src/error/go.rs:73-81 | well-formed is what encodes some sequence of scalar values |
| `LossyText.GoodStartKept` | libwasmvm/src/error/go.rs:73-81 | a well-formed start is kept, whatever follows |
| `LossyText.BadStartReplaced` | libwasmvm/src/error/go.rs:73-81 | the longest start of a character that is never completed, or a single byte, becomes the three bytes of U+FFFD |
| `LossyText.BadStartIs` | libwasmvm/src/error/go.rs:73-81 | there is exactly one such start |
| `LossyText.CutText` | libwasmvm/src/error/go.rs:73-81 | a well-formed text that is cut keeps its whole characters, and one U+FFFD stands for a character that was cut |
| `Storage.IntoResult` | libwasmvm/src/error/go.rs:60-96 | the error vector is consumed on every path; every status has its own error; a message of at most 8192 bytes arrives as it is if and only if it is UTF-8, and without one the default does |
| `Storage.LongTextArrives` | libwasmvm/src/error/go.rs:68-81 | a longer UTF-8 message arrives up to its last whole character within 8192 bytes, with one U+FFFD for a character that was cut |
| `Storage.ScanDb` | libwasmvm/src/storage.rs:66-105 | the error slot has been consumed and the reference filled |
| `Storage.GoIterNext` | libwasmvm/src/iterator.rs:80-126 | end, record or error, also for a reference that leads nowhere, with all three slots consumed |
| `Storage.GoIterNextPart` | libwasmvm/src/iterator.rs:145-180 | end, key or value, or error, also for a reference that leads nowhere, with both slots consumed |
| `Storage.GoStorage.Get` | libwasmvm/src/storage.rs:27-64 | the store's answer, or out of gas if and only if the panic was, else a foreign panic; every vector of the callback destroyed exactly once |
| `Storage.GoStorage.Scan` | libwasmvm/src/storage.rs:66-114 | the next free ID is returned and inserted without overwriting, or the limit or panic is reported; the count never overflows and the tables stay linked |
| `Storage.GoStorage.Next` | libwasmvm/src/storage.rs:116-124 | the record of the iterator behind the ID, or the error for an unknown ID; nothing leaks |
| `Storage.GoStorage.NextPart` | libwasmvm/src/storage.rs:126-146 | the same for next_key and next_value |
| `Storage.GoStorage.Set` | libwasmvm/src/storage.rs:148-179 | result and gas for return and panic, lack of gas told apart; nothing leaks |
| `Storage.GoStorage.Remove` | libwasmvm/src/storage.rs:181-210 | result and gas for return and panic, lack of gas told apart; nothing leaks |
| `Storage.AddrConvert` | libwasmvm/src/api.rs:64-135 | address or error, a humanized address only if it is UTF-8; both vectors destroyed exactly once on every path |
| `Storage.AddrValidate` | libwasmvm/src/api.rs:137-158 | verdict or error; the error vector destroyed exactly once |
| `Storage.QueryRaw` | libwasmvm/src/querier.rs:44-91 | the response, as JSON or as an invalid response, or the error; both vectors destroyed exactly once on every path |
| `Calls.RunContract` | libwasmvm/src/calls.rs:664-703 | an arbitrary contract with nested calls: no fault, no older table entry touched, nested iterators closed exactly once, gas log chained, observations those of the session |
| `Calls.RunNested` | internal/api/callbacks.go:475-503 | the calls that a query runs: the counter moves by their number, frames are as before, exactly the iterators they accepted are closed, once |
| `Calls.PerformQuery` | libwasmvm/src/querier.rs:44-91 | a query with the calls it runs leaves nothing behind but closed iterators, and a leak exactly when a nested result's length turns negative |
| `ContractRun.NestedInvisible` | internal/api/iterator.go:38-101 | a nested call is invisible to the contract that made the query |
| `ContractRun.ContractSeesRecords` | libwasmvm/src/iterator.rs:80-180 | what such a contract sees on an ID is, record after record, what the store returned for that scan, then None |
| `Calls.SetError` | libwasmvm/src/error/rust.rs:190-204 | the slot owns the message and the errno is 2 exactly for lack of gas |
| `Calls.HandleCErrorBinary` | libwasmvm/src/error/rust.rs:230-247 | on success the slot is untouched, on error the data has no buffer |
| `Calls.DoCall` | libwasmvm/src/calls.rs:757-797 | gas report, checksum and argument checks in order, the gas report filled only when the contract ran, and the verdict |
| `Calls.CallArgs` | libwasmvm/src/calls.rs:715-755 | exactly one of result and error slot carries a vector, for results, errors and caught panics |
| `Calls.ErrorWithMessage` | internal/api/lib.go:1039-1051 | the message vector is destroyed on every path and the out-of-gas number wins |
| `Calls.VerdictTold` | libwasmvm/src/error/rust.rs:129-136 | by the fields of the call: the first mistake in its arguments by its text, out of gas if and only if the virtual machine said so, its other errors by their text, a panic as such, and data if and only if the contract finished; the gas report if and only if it ran to an end of its own; told if and only if it is shorter than 2 GiB |
| `Calls.TakeResult` | internal/api/lib.go:258-263 | the caller is told the verdict if and only if it is shorter than 2 GiB; GoBytes panics and the vector leaks if and only if its length turns negative as a C int |
| `Calls.Instantiate` | internal/api/lib.go:221-264 | for every contract, nested calls and outcome: mistakes, errors, lack of gas, panics and data told as the call itself asks for, vectors destroyed exactly once or leaked by the length condition, frames as before, the counter moved by the calls started, exactly the accepted iterators closed, once each, gas chained |
| `Analysis.AnalyzeCodeFfi` | libwasmvm/src/cache.rs:312-340 | on an error both list vectors are none and the slot has the message, otherwise the two lists have a buffer each |
| `Analysis.TakeLists` | internal/api/lib.go:174-176 | both lists reach the caller if and only if they are shorter than 2 GiB, and both are destroyed if and only if no length turns negative |
| `Analysis.AnalysisTold` | libwasmvm/src/cache.rs:312-340 | there is an error if and only if an argument or the analysis failed, and it is told by its kind: the argument, lack of gas, the text of another error, a panic |
| `Analysis.AnalyzeCode` | internal/api/lib.go:166-185 | the error or the findings reach the caller under those conditions; entry points come back in ascending order if and only if there is one and none has a comma |
| `GasRuns.ReportsAddUp` | internal/api/callbacks.go:245-255 | for any meter, reported and unreported gas of any sequence of callbacks are the meter's advance and 2^64 for every reporting callback in which it went down; the condition under which no more than the advance is reported |
| `GasRuns.MonotoneReports` | internal/api/callbacks.go:245-255 | on a monotone meter the reported gas is the meter's advance outside panicking callbacks, and all of it if and only if those did not move it |
| `GasRuns.AddUint64Overflow` | internal/api/mocks.go:227-233 | overflow is flagged exactly when the sum does not fit |
| `GasRuns.MockMeterMonotone` | internal/api/mocks.go:235-246 | the mock meter moves up if and only if its addition does not overflow, and charges without panic if and only if the sum is within the limit |
| `GasRuns.OverflowOverstatesReports` | internal/api/mocks.go:235-246 | a run after which more gas was reported than the meter shows |
| `MockStore.MemDB.Get` | internal/api/testdb/memdb.go:59-71 | a value if and only if the database holds that key with that value, or the error for an empty key |
| `MockStore.MemDB.Set` | internal/api/testdb/memdb.go:85-97 | one key changes, or one of the two errors and nothing changes |
| `MockStore.MemDB.Delete` | internal/api/testdb/memdb.go:110-119 | one key is forgotten, or the error and nothing changes |
| `MockStore.MemDB.Iterator` | internal/api/testdb/memdb.go:166-180 | exactly the items within the bounds, sorted in the direction asked for, or the error for an empty bound that is not nil |
| `MockStore.MockGasMeter.ConsumeGas` | internal/api/mocks.go:235-246 | panics exactly when the sum overflows or exceeds the limit, and says which |
| `MockStore.Lookup.Get` | internal/api/mocks.go:286-294 | charges 99000 first, then answers with the stored value, or panics, for lack of gas if and only if the limit is passed |
| `MockStore.Lookup.Set` | internal/api/mocks.go:297-302 | charges 187000 first; one key changes exactly when the call returns |
| `MockStore.Lookup.Delete` | internal/api/mocks.go:305-310 | charges 142000 first; one key is forgotten exactly when the call returns |
| `MockStore.Lookup.Iterator` | internal/api/mocks.go:313-332 | charges 261000 first, then exactly the items within the bounds, sorted, or a panic |
| `MockStore.LookupScans` | internal/api/mocks.go:313-332 | a scan succeeds with the range if and only if its bounds are not empty and the gas suffices |
| `MockStore.ContentIsLastWrites` | internal/api/mocks.go:297-310 | the database after a contract's operations answers every key with the last write that returned |
| `MockStore.AnswerAll` | internal/api/mocks.go:257-332 | a program on one Lookup finds at every operation the content that its earlier writes left |
| `MockStore.LookupScanDeliversRange` | internal/api/mocks.go:313-332 | for any contract on a Lookup, the answers on a successful scan's ID show the range of the database as the contract's own earlier writes left it, then None |
| `Utf8.DecodeEncode` | types/json_size.go:20 | the rune decoder of a range loop undoes the UTF-8 encoding, whatever follows |
| `Utf8.EncodeDecode` | types/json_size.go:20 | what decodes without error was the encoding of a scalar value |
| `JsonStrings.PrintedReadsBack` | types/json_size.go:17-36 | the escaped text reads back as the string with bad bytes replaced, and what follows is untouched |
| `JsonStrings.ExpectedJSONSizeString` | types/json_size.go:17-36 | the estimate plus five bytes per bad byte and three per separator is the length of the printed string |
| `JsonStrings.StringSizeExactness` | types/json_size.go:17-36 | the estimate is exact if and only if the string is valid UTF-8 without U+2028 and U+2029 |
| `JsonEscapes.PrintedLength` | types/json_size.go:17-36 | by code points: the printed length of every text is its bytes, two quotes, one byte for each of seven characters, five for each other control character and for each of <, > and &, three for each separator |
| `JsonEscapes.EstimateOfText` | types/json_size.go:17-36 | the estimate counts the same, but for the separators |
| `JsonEscapes.OthersStand` | types/json_size.go:17-36 | every other character is written as it is |
| `JsonEscapes.ShortEscapes` | types/json_size.go:21-23 | the text of each of the seven short escapes |
| `JsonEscapes.LongEscapes` | types/json_size.go:24-31 | which characters are written as long escapes |
| `JsonEscapes.UnicodeEscapeIs` | types/json_size.go:24-31 | a long escape is the code in four hexadecimal digits |
| `JsonEscapes.BadByte` | types/json_size.go:17-36 | a byte that begins no character is written as one escape of U+FFFD, five bytes more than the estimate |
| `JsonScalars.DigitsReadBack` | types/json_size.go:57-87 | the decimal digits stand for the number and have no leading zero |
| `JsonScalars.ExpectedJSONSizeUint64` | types/json_size.go:76-87 | the length of the decimal digits |
| `JsonScalars.ExpectedJSONSizeInt` | types/json_size.go:57-69 | the length of the printed integer if and only if it is not the smallest 64-bit one, for which 1 is returned instead of 20 |
| `JsonScalars.IntText` | types/json_size.go:57-69 | the sign stands in front, and only of negative numbers |
| `JsonScalars.ExpectedJSONSizeBool` | types/json_size.go:94-100 | the length of the printed boolean |
| `JsonScalars.Base64ReadsBack` | types/json_size.go:43-50 | the padded base64 text decodes to the bytes |
| `JsonScalars.SextetIs` | types/json_size.go:43-50 | the alphabet of the encoding |
| `JsonScalars.GroupValue` | types/json_size.go:43-50 | three bytes and their four characters are the same number, and what is missing is padded |
| `JsonScalars.Base64Length` | types/json_size.go:47-49 | the text has four characters for every three bytes begun |
| `JsonScalars.ExpectedJSONSizeBinary` | types/json_size.go:43-50 | the length of the quoted base64 text, or of null for a nil slice |
| `JsonText.PrintedMeans` | types/json_size.go:3-10 | the printed JSON of every value reads back as that value, whatever follows; after a number that must not be a digit |
| `JsonText.ObjectText` | types/json_size.go:3-10 | the braces, quotes, colons and commas of an object |
| `JsonText.ArrayText` | types/json_size.go:3-10 | the brackets and commas of an array |
| `JsonText.ScalarText` | types/json_size.go:3-10 | the quotes of strings, byte slices and quoted numbers, and null |
| `JsonText.PredictionExactness` | types/json_size.go:3-10 | a predicted size is never too large, and exact if and only if every string in the value is clean |
| `IbcMessages.CoinSize` | types/json_size.go:116-122 | the length of the printed coin, short only of its strings' misses |
| `IbcMessages.ArraySize` | types/json_size.go:131-140 | the same for a list of coins of any length |
| `IbcMessages.EndpointSize` | types/json_size.go:147-153 | the same for an endpoint |
| `IbcMessages.ChannelSize` | types/json_size.go:160-172 | the same for a channel |
| `IbcMessages.OpenInitSize` | types/json_size.go:179-182 | the same for the messages that hold a channel only |
| `IbcMessages.OpenTrySize` | types/json_size.go:189-195 | the same for the messages with a counterparty version |
| `IbcMessages.ChannelOpenSize` | types/json_size.go:202-217 | the same with neither, one or both of the optional fields |
| `IbcMessages.ChannelConnectSize` | types/json_size.go:247-262 | the same with neither, one or both of the optional fields |
| `IbcMessages.ChannelCloseSize` | types/json_size.go:289-304 | the same with neither, one or both of the optional fields |
| `IbcMessages.BlockSize` | types/json_size.go:311-317 | the same for a timeout block |
| `IbcMessages.TimeoutSize` | types/json_size.go:324-340 | the same with a missing block as null and a zero timestamp left out |
| `IbcMessages.PacketSize` | types/json_size.go:347-359 | the same for a packet |
| `IbcMessages.AcknowledgementSize` | types/json_size.go:366-370 | the same for an acknowledgement |
| `IbcMessages.AckCallbackSize` | types/json_size.go:418-426 | the same for the messages with acknowledgement, packet and relayer |
| `IbcMessages.TimeoutCallbackSize` | types/json_size.go:433-439 | the same for the messages with packet and relayer |
| `IbcMessages.SourceCallbackSize` | types/json_size.go:446-464 | the same with neither, one or both of the optional fields |
| `IbcMessages.DestinationCallbackSize` | types/json_size.go:471-484 | the same with and without the transfer |
| `IbcMessages.TransferSize` | types/json_size.go:491-499 | the same for a transfer with its coins |
| `IbcReading.CoinRead` | types/types.go:57-67 | a coin whose strings are UTF-8 is got back from its value by the names of its fields |
| `IbcReading.CoinsRead` | types/ibc.go:200 | the same for a list of coins, in order |
| `IbcReading.EndpointRead` | types/ibc.go:3-6 | the same for an endpoint |
| `IbcReading.ChannelRead` | types/ibc.go:8-14 | the same for a channel |
| `IbcReading.OpenInitRead` | types/ibc.go:38-40 | the same for the messages that hold a channel only |
| `IbcReading.OpenTryRead` | types/ibc.go:48-51 | the same for the messages with a counterparty version |
| `IbcReading.ChannelOpenText` | types/ibc.go:16-19 | the printed text of the message gives it back, each optional field exactly when it was there |
| `IbcReading.ChannelConnectText` | types/ibc.go:59-62 | the same |
| `IbcReading.ChannelCloseText` | types/ibc.go:102-105 | the same |
| `IbcReading.BlockRead` | types/ibc.go:222-229 | a timeout block is got back |
| `IbcReading.TimeoutRead` | types/ibc.go:233-240 | a timeout is got back; the block is always there, the timestamp if and only if it is not zero |
| `IbcReading.PacketRead` | types/ibc.go:246-252 | a packet is got back |
| `IbcReading.AcknowledgementRead` | types/ibc.go:242-244 | an acknowledgement is got back, nil apart from empty |
| `IbcReading.AckCallbackText` | types/ibc.go:161-165 | the printed text gives the message back |
| `IbcReading.TimeoutCallbackText` | types/ibc.go:167-170 | the same |
| `IbcReading.SourceCallbackText` | types/ibc.go:156-159 | the same, each optional field exactly when it was there |
| `IbcReading.TransferRead` | types/ibc.go:196-205 | a transfer with its coins is got back |
| `IbcReading.DestinationCallbackText` | types/ibc.go:187-194 | the printed text gives the message back, the transfer exactly when it was there |
| `ResponseGas.ChargeIsPrice` | types/fraction.go:21-27 | the charge is the price if and only if the product fits 64 bits, and otherwise less |
| `ResponseGas.PriceIsFloor` | types/fraction.go:25-27 | the price is the largest amount that, times the denominator, is not more than the product |
| `ResponseGas.TotalIsTrue` | lib_libwasmvm.go:846-850 | the total compared with the limit is the true one if and only if neither the product nor the sum overflows |
| `ResponseGas.DeserializeResponse` | lib_libwasmvm.go:846-871 | refused with an unchanged report exactly when the total exceeds the limit; otherwise charged, within the limit, and judged; where nothing overflows used and remaining gas keep their sum if and only if the price was not more than what remained |
| `ResponseGas.CheckPayloads` | lib_libwasmvm.go:858-870 | accepted exactly when every payload has at most 128 KiB, else the first larger one is named |
| `ResponseGas.ChargeConserves` | lib_libwasmvm.go:847-852 | used and remaining gas keep their sum if and only if addition and subtraction both stay in range or both wrap around |
| `ResponseGas.PriceIsMoved` | lib_libwasmvm.go:847-852 | where nothing overflows: refused exactly when the price is more than the limit leaves; a balanced report stays balanced if and only if the price is not more than what remains, which is certain without external use |
| `ResponseGas.ExternalGasUnderflows` | lib_libwasmvm.go:846-852 | a call that is accepted and makes the remaining gas wrap around |
| `Transports.ViewsRoundTrip` | internal/api/memory.go:13-30 | nil, empty and data keep apart and keep their bytes, into Rust always, into Go if and only if shorter than 2^31 bytes |
| `Transports.ChunksExact` | libwasmvm/src/cache.rs:226-229 | every chunk has 32 bytes, as many as fit, and together they begin the buffer |
| `Transports.SyncPinnedCodes` | lib_libwasmvm.go:129-135 | the cache gets the caller's list if and only if every checksum has 32 bytes, and no list makes it fail |
| `Transports.JoinSplit` | internal/api/lib.go:175-176 | joining the parts of any text gives it back |
| `Transports.JoinMore` | libwasmvm/src/cache.rs:307-310 | one more name in a list is one more comma in its text |
| `Transports.CsvRoundTrip` | internal/api/lib.go:175-176 | splitting a joined list gives it back if and only if it is not empty and no name has a comma |
| `Transports.ListingUnique` | libwasmvm/src/cache.rs:307-310 | a set of names has only one ascending listing |
| `Transports.SetToCsv` | libwasmvm/src/cache.rs:307-310 | the text of a set is its ascending listing, joined |
| `Transports.CsvOfSet` | libwasmvm/src/cache.rs:302-310 | splitting the text of a set gives its names in strictly ascending order if and only if it is not empty and no name has a comma; the empty set gives one empty name |

## Left out

- cosmwasm-vm, Wasmer and the module cache: a contract is an arbitrary sequence of storage, address and query operations with an arbitrary ending.
- The other entry points that run a contract: they repeat the shape of `Instantiate`, with two or three arguments.
- StoreCode, Pin, GetMetrics and the other cache entry points: one vector or none, the same error handling as `AnalyzeCode`.
- compileCost: a single multiplication.
- The numbers that stand for error codes and orders at the language border: both sides use the same enumeration here.
- handle_c_error_ptr: the same two branches with a null pointer instead of a default.
- IteratorNoMtx and ReverseIteratorNoMtx: without the read lock there is no snapshot to prove.
- The B-tree: a strictly ascending sequence with three point operations and five walks.
- Checks of out pointers for null in the callbacks, pinning, KeepAlive and vtables: memory layout. The guards on vectors that are not none are modelled.
- Keys and bounds on their way into a callback: the callbacks take them as values; `Transports.ViewsRoundTrip` is about that way.
- Text that describes an unexpected error inside Rust, such as the fallback message of a failed callback: a parameter named `default`.
- The JSON parsing of a query response and of a contract response: its outcome is a parameter.
- encoding/json: only the printer for the modelled messages, as Go writes it since it uses the short escapes for backspace and form feed; surrogate escapes are not read back.
- Lengths and sizes beyond 64 bits: lengths are natural numbers in the size estimates, and the 64-bit integers there are natural numbers too, except in `ExpectedJSONSizeInt`.
- IBC messages that have the fields of a modelled one: IBCOpenAck, IBCOpenConfirm, IBCCloseInit, IBCCloseConfirm, IBCPacketReceiveMsg, IBCPacketAckMsg and IBCPacketTimeoutMsg.
- Calls.Instantiate: stated for a counter with room for the calls that are started, since a reused ID would find another call's frame; `IteratorFrames.CallIdsUnique` says when that is. No Close panics in it; `IteratorFrames.FrameTable.EndCall` and `Protocol.ClosedExactlyOnce` cover that.
- Isolation.CallsAreIsolated: stated for fewer than 2^64 starts, for the same reason.
- Callbacks.CQueryExternal: answers only; the contract calls that a query runs are in `Calls.PerformQuery`, before the answer, with a gas meter of their own.
- Callbacks.CNext: an iterator that returns a nil key or value is not modelled; items hold bytes.
- Callbacks.CNextPart: the same.
- MockStore.MemDB.Set: does not wait for the read lock; `ReadLock.WriterGetsThrough` says when it would, and `ReadLock.ScanThenWriteWaits` that beside a scan of more than 65 items it would wait forever.
- MockStore.MemDB.Delete: the same.
- MockStore.Lookup.Set: the same.
- MockStore.Lookup.Delete: the same.
- MockStore.MemDB.Iterator: gives the whole range at once; the cursor behind it is in `Snapshot`, and `FullRuns.ScansDeliverSnapshots` joins cursors and calls.
- MockStore.Lookup.Iterator: the same.
- MockStore.AnswerAll: writes do not wait for the read lock of the program's own scans, as in `MockStore.Lookup.Set`.
- MockStore.LookupScanDeliversRange: the same.
