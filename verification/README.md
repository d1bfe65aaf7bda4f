# A verified model of bhchain's core

bhchain is a blockchain application framework in Go: an ABCI application over a
stack of write-back caches, with gas metering, fees, fixed-point money and Base58
addresses. This project models the parts whose correctness the rest leans on and
proves, for all inputs and all runs, what they promise.

## What is modelled

**Caches** (`Bytes`, `OrderedMap`, `MergeSpec`, `CacheIterators`, `CacheKV`,
`CacheSession`, `SessionLaws`). The write-back cache over a key-value store is a class with its
three fields (the entry map, the set of keys not yet sorted, the sorted list), and
caches stack to any depth. Its iterators merge dirty entries with the parent's
iterator and skip deletions. `CacheSession` puts these together: any sequence of
reads, writes, wraps, writes to the parent, discards and iterator calls on such a
stack gives the answers a stack of plain maps gives, where an iterator is the list
of entries at the moment it was opened. `SessionLaws` says what that plain machine
does, up to a layer being a transaction: discarded it leaves no trace, written it is
as if it had not been there.

**Transactions and blocks** (`Gas`, `CacheMulti`, `Handlers`, `HandlerLaws`, `TxSpec`,
`TxExec`, `MsgLaws`, `TxLaws`, `Layers`, `AppSpec`, `AppLaws`, `CallLaws`, `BaseApp`). The ante handler, the message
handlers, the refund handler, the queriers and the begin and end blockers are
arbitrary programs that read, write, scan, spend gas, return or panic. `TxSpec` and
`AppSpec` say what a transaction and an ABCI call do to plain state; `MsgLaws`,
`TxLaws`, `AppLaws` and `CallLaws` prove the promises on that, told from the runs of
the handlers alone (messages all or none, the answer of a transaction, block gas is a
sum, reads do not interfere, commits fold the effects of blocks, what each call does);
`TxExec`, `Layers` and `BaseApp` are the code on real caches, proved to do and answer
the same call by call and over whole runs.

**Key ranges, versions, and the IAVL iterator** (`Prefix`, `IavlVersions`,
`IavlIterator`). The prefix store on top of the caches above, pruning over any run
of commits, and the goroutines and channels of the tree iterator as an interleaving
of steps with any number of callers.

**Money** (`Decimal`, `Numerals`, `DecimalText`, `Coins`, `CoinLaws`, `DecCoins`,
`Bank`, `Fees`). Eighteen-digit decimals with the roundTiesToEven rule of section
4.3.1 of IEEE 754-2008, their text, coin sets as sorted slices, transfers between
accounts, and the fee of a delivered transaction from deduction to refund.

**Addresses** (`Base58`, `Address`). The Base58 codec with the alphabet and
algorithms of sections 2 to 4 of draft-msporny-base58, and HBC addresses on it, for
every checksum function of four bytes.

Go's nil is `None`, byte strings are sequences of bytes (so are Go strings), a panic
is the outcome `Panic` or, for handlers, `Panicked`. Clocks, randomness, hashing,
signatures and databases are parameters or plain maps.

## Results that are not what one might expect

- `Quo` rounds twice, so it can miss the nearest unit: `Decimal.QuoNearestIff` says
  exactly when, and `Decimal.HiddenTieExists` gives an input. `QuoRoundUp` can be
  short of the exact quotient: `Decimal.QuoRoundUpIff`, `Decimal.QuoRoundUpShort`.
- Texts beyond the promised form are read as decimals, for example a plus alone as
  zero: `DecimalText.ParseIff` says exactly which, `DecimalText.OddTexts` gives two.
- A valid coin set may hold denominations that cannot be looked up, because only the
  first one is checked (`CoinLaws.UnreadableDenom`). `IsAllGTE`, `Intersect`,
  `TruncateDecimal` and the refund handler panic on those; their contracts say
  exactly when.
- The sum of two valid decimal sets need not be valid, because their `IsValid`
  refuses upper case after the first coin: `DecCoins.AddValidIff` says exactly when it
  is, and `DecCoins.UpperCaseSum` gives an input where it is not.
- The refund handler divides by zero when the gas wanted is zero and the gas used
  wraps to zero with the 20000 that are added to it (`Fees.FractionByZero`). Gas used
  within the gas wanted excludes that (`Fees.FractionWithinLimit`).
- A transfer of several coins stops at the first that is refused and leaves those
  before it moved (`Bank.SendAllLaws`). The refund handler does not look at the
  result, so a refund may be paid in part: `Fees.PaidInFullIff` says exactly when it
  is paid in full, and `Fees.PaidInPart` gives an input where it is not.
- An ante handler that aborts with an OK code makes the answer OK although no message
  ran: `TxLaws.OkIff` says exactly when an answer is OK.
- Commit compares the halt height without a sign and the halt time with one, so a
  halt time from 2^63 on halts at once: `CallLaws.CommitLaw`.
- Appending the zero byte of an inclusive range end writes into the caller's array
  when that has room behind the slice (`Prefix.InclusiveEndBytes`).
- The comment on `IsValid` of coin sets says that upper case is refused; the code
  accepts it, and the model follows the code.

## Model

| member | source | states |
|---|---|---|
| MergeSpec.MergeIsOverlay | store/cachekv/mergeiterator.go:52-146 | merging a parent's range with the dirty entries of that range, deletions skipped, is the range of the parent overlaid with the dirty entries, in both directions |
| MergeSpec.MergeMembers | store/cachekv/mergeiterator.go:52-146 | the merge is strictly ordered and holds exactly the existing dirty entries and the parent's entries whose key is not dirty |
| CacheIterators.MemIterator.constructor | store/cachekv/memiterator.go:19-40 | the iterator holds exactly the listed entries of the range, in iteration order |
| CacheIterators.InDomainRun | store/cachekv/memiterator.go:19-40 | the scan that stops at the first entry past the range misses none |
| CacheIterators.MemIterator.Next | store/cachekv/memiterator.go:56-63 | drops the head, or panics when there is none |
| CacheIterators.MergeIterator.constructor | store/cachekv/mergeiterator.go:24-33 | a new merge iterator is coherent and still to yield the merge of its two parts |
| CacheIterators.MergeIterator.Valid | store/cachekv/mergeiterator.go:52-55 | true exactly while entries are left; may advance the parts, never what is left to yield |
| CacheIterators.MergeIterator.Next | store/cachekv/mergeiterator.go:57-84 | drops exactly the head of what is left, or panics when nothing is |
| CacheIterators.MergeIterator.Key | store/cachekv/mergeiterator.go:87-114 | the key of the head of what is left, which stays the same |
| CacheIterators.MergeIterator.Value | store/cachekv/mergeiterator.go:117-144 | the value of the head, the cache's where both parts hold the key |
| CacheIterators.MergeIterator.SkipCacheDeletes | store/cachekv/mergeiterator.go:165-175 | drops leading deletions without changing what is left to yield, and drops at least one where one must go |
| CacheIterators.MergeIterator.SkipUntilExistsOrInvalid | store/cachekv/mergeiterator.go:177-226 | ends, by the number of entries left in the two parts, at an entry that exists or at the end, with what is left to yield unchanged |
| CacheKV.Store.constructor | store/cachekv/store.go:38-45 | a new cache is empty and reads as its parent |
| CacheKV.Store.Get | store/cachekv/store.go:53-67 | the value in the plain map the cache stands for, in a stack of any depth; no layer's content changes |
| CacheKV.Store.Set | store/cachekv/store.go:70-77 | updates one key of the top map and nothing below it |
| CacheKV.Store.Has | store/cachekv/store.go:80-83 | membership in the plain map |
| CacheKV.Store.Delete | store/cachekv/store.go:86-92 | removes one key of the top map and nothing below it |
| CacheKV.Store.Write | store/cachekv/store.go:95-127 | the parent becomes what the cache read as, the cache is empty and reads the same, deeper layers are untouched |
| CacheKV.Push | store/cachekv/store.go:108-121 | pushing the dirty entries in key order leaves their overlay in the parent |
| CacheKV.Store.Iterator | store/cachekv/store.go:155-171 | a fresh iterator over exactly the range of the plain map, sharing no state with the store |
| CacheKV.Store.DirtyItems | store/cachekv/store.go:174-210 | afterwards the sorted list is exact on the range: every dirty entry of it with its current value |
| CacheKV.Store.TakeUnsorted | store/cachekv/store.go:174-187 | takes exactly the waiting keys of the range, sorted, with their current values |
| CacheKV.Store.MergeUnsorted | store/cachekv/store.go:189-210 | one walk over the sorted list puts every new entry in or in place of the old one and keeps it sorted |
| CacheKV.Store.SetCacheValue | store/cachekv/store.go:216-225 | records an entry, and marks a dirty key as waiting to be sorted |
| CacheSession.Session.Step | store/cachekv/store.go:53-171 | one operation on the caches and live iterators answers as the plain machine does and leads to its next state |
| CacheSession.Session.StoreStep | store/cachekv/store.go:53-92 | a read or write through the top layer answers as the plain map and leaves every live iterator as it was |
| CacheSession.Session.LayerStep | store/cachekv/store.go:95-135 | wrapping, writing and discarding layers move the stack of plain maps accordingly and leave every live iterator as it was |
| CacheSession.Replay | store/cachekv/store.go:38-225 | every run of operations on a stack of caches gives the answers of the plain machine |
| SessionLaws.StoreLaw | store/cachekv/store.go:53-92 | a store operation of the plain machine answers from or changes one key of the top map, and touches no other key, map or iterator |
| SessionLaws.LayerLaw | store/cachekv/store.go:95-135 | wrapping copies the top map, writing copies it to the one below, discarding removes it; iterators stay |
| SessionLaws.IteratorLaw | store/cachekv/store.go:140-171 | an iterator is the list of entries in range when it was opened, answers with its head and moves by dropping it |
| SessionLaws.OnOwnLayer | store/cachekv/store.go:38-171 | on a layer of its own any run answers as without it and leaves everything below alone |
| SessionLaws.WrapAndDiscard | store/cachekv/store.go:38-135 | wrapping, any run of operations and discarding leaves the stores as they were |
| SessionLaws.WrapAndWrite | store/cachekv/store.go:38-135 | wrapping, any run of operations, writing and discarding is that run without the layer, answers included |
| Gas.AddUint64Overflow | store/types/gas.go:71-77 | the exact sum, or zero and a flag past 64 bits |
| Gas.Consume | store/types/gas.go:79-91 | when each panic comes, and the exact count unless the sum overflows |
| Gas.GasMeter.ConsumeGas | store/types/gas.go:79-91 | the meter and panic of `Consume`, with the count stored before the checks |
| CacheMulti.MultiStore.CacheMultiStore | store/cachemulti/store.go:63-71 | a new layer over every substore reads as the layer under it and shares none of its own objects |
| CacheMulti.MultiStore.Write | store/cachemulti/store.go:105-111 | every substore's layer is written to the one under it |
| CacheMulti.MultiStore.Scan | store/cachekv/store.go:155-171 | reading a range through an iterator to its end gives the range of the substore |
| CacheMulti.MultiStore.StaysCoherent | store/cachekv/store.go:53-67 | a layer that was not touched serves no stale entry while the layer under it reads the same |
| CacheMulti.WriteBack | store/cachemulti/store.go:63-111 | wrapping, working on the new layer and writing it changes the layer under it as working there directly would |
| Handlers.Exec | baseapp/baseapp.go:769-828 | any handler behaves on cache-wrapped stores as on plain maps, and changes nothing under the top layer |
| HandlerLaws.ActLaw | baseapp/baseapp.go:769-828 | one action of a handler sees or changes one key of one store, or the meter, and nothing else |
| HandlerLaws.RunLaw | baseapp/baseapp.go:769-828 | a handler acts up to the first point where it returns, panics or asks for a store that is not mounted, and keeps state and meter of that point |
| TxExec.ValidateBasicTxMsgs | baseapp/baseapp.go:737-752 | no messages, or the first message that fails, decides the result |
| TxExec.RunMsgsOn | baseapp/baseapp.go:769-828 | the loop over messages does on caches what the fold of their handlers does on plain state, up to the first failure or panic |
| TxExec.CacheTxContext | baseapp/baseapp.go:840-861 | a cache over the context's store that reads the same and shares no new object |
| TxExec.RunAnteOn | baseapp/baseapp.go:924-955 | the ante handler's writes are kept exactly when it neither aborts nor panics |
| TxExec.RefundOn | baseapp/baseapp.go:969-977 | the final cache is written exactly when the messages were OK or the refund was paid |
| TxExec.RunTxOn | baseapp/baseapp.go:863-980 | `runTx` on caches, with its two deferred calls in reverse order, leaves the state, meters and result the plain meaning gives |
| MsgLaws.BasicIff | baseapp/baseapp.go:737-752 | basic validation is OK exactly for a list that is not empty and whose messages are all valid; else the code is that of the first that is not |
| MsgLaws.MsgsInOrder | baseapp/baseapp.go:769-828 | the messages run in order up to the first that has no route or does not return OK, and no later one runs; code and gas are those of that message, or unknown request and no gas |
| MsgLaws.SuccessIsWhole | baseapp/baseapp.go:769-828 | the list is OK exactly when every message is routed and returned OK, and then state and gas are those after all of them in turn |
| MsgLaws.CheckedMsgs | baseapp/baseapp.go:783-794 | in check mode no handler runs: only the routes decide |
| TxLaws.DeliverIsAtomic | baseapp/baseapp.go:863-980 | for all handlers, error codes and panic points a delivered transaction leaves the state untouched, or after the ante handler, or after that and a refund, or, exactly when every message returned OK and the refund did not panic, with the whole message list in between |
| TxLaws.DeliverResult | baseapp/baseapp.go:863-980 | code, gas wanted, gas used and both meters of a delivered transaction, for every course it can take; a panic of the block charge replaces what ended the body |
| TxLaws.OkIff | baseapp/baseapp.go:863-980 | the answer is OK exactly when the block had gas and the charge fits, and every message returned OK without a panic of the refund, or the ante handler aborted with an OK of its own |
| TxLaws.PanicCodes | baseapp/baseapp.go:872-917 | exactly when the answer is out of gas and when it is internal |
| TxLaws.CheckLaws | baseapp/baseapp.go:694-980 | a check keeps the ante handler's writes exactly when that lets the transaction through, runs no message, and answers by validation, ante handler and routes |
| TxLaws.CheckIgnoresHandlers | baseapp/baseapp.go:783-794 | transactions that differ only in the bodies of their handlers are checked with the same effect and result |
| TxLaws.SimulateLaws | baseapp/baseapp.go:754-980 | a simulation answers as the messages end, without refund or block |
| TxLaws.ExhaustedBlock | baseapp/baseapp.go:872-875 | once the block limit is reached no later transaction changes state or is charged |
| TxLaws.BlockGasIsSum | baseapp/baseapp.go:872-917 | with charges and limit below 2^63 the block meter is the exact sum of the charges, and ends below the limit plus the last charge |
| Layers.HandlerOnLayer | baseapp/baseapp.go:983-1000 | a block handler on one layer leaves the root and the other layer as they were, and the other one coherent |
| Layers.TxOnLayer | baseapp/baseapp.go:715-735 | the same for a delivered transaction |
| Layers.CheckOnLayer | baseapp/baseapp.go:694-713 | the same for a transaction checked for the mempool, whose ante writes stay in the check layer |
| Layers.SimulateOnLayer | baseapp/baseapp.go:754-765 | a simulation runs on a cache that is dropped: no layer changes |
| AppLaws.Noninterference | baseapp/baseapp.go:457-713 | CheckTx, Simulate and Query, wherever they fall in a run, change neither the committed nor the deliver state; only a querier's panic can change whether the process lives |
| AppLaws.SameAnswers | baseapp/baseapp.go:457-735 | CheckTx, Simulate and Query, wherever they fall, do not change what the other calls answer |
| AppLaws.BodyDelivers | baseapp/baseapp.go:715-735 | deliveries mixed with reads leave the deliver state the deliveries alone leave |
| AppLaws.BlockCommits | baseapp/baseapp.go:645-1042 | from every state, a block that gets through commits begin, transactions and end in order, on the deliver state InitChain left or on a new one, raises the version by one, and resets the check state to what was committed |
| AppLaws.ChainOfBlocks | baseapp/baseapp.go:645-1042 | from every state, after any number of blocks the committed state is the fold of their effects and the version has grown by their number |
| AppLaws.EveryRun | baseapp/baseapp.go:457-1042 | the same for every run of blocks with CheckTx, Simulate and Query anywhere in it, between blocks too; right after a commit the check state is what was committed |
| AppLaws.EveryRunFromInit | baseapp/baseapp.go:384-1042 | the same for every run from InitChain on, whose deliver state the first block runs on |
| CallLaws.InitChainLaw | baseapp/baseapp.go:384-426 | exactly when InitChain stops the process, and all of the state it leaves: parameters stored, both layers new, the initializer's writes in the deliver state |
| CallLaws.StoredParams | baseapp/baseapp.go:326-339 | storing the parameters changes one key of the main store |
| CallLaws.BeginBlockLaw | baseapp/baseapp.go:631-690 | exactly when BeginBlock stops the process; the block meter starts at zero with the limit of the parameters, or without one |
| CallLaws.CheckTxLaw | baseapp/baseapp.go:694-713 | the check state afterwards is what the ante handler left exactly when validation passes and it does not abort, and nothing else changes |
| CallLaws.ChecksAlike | baseapp/baseapp.go:694-713 | CheckTx does not depend on what the handlers would do |
| CallLaws.SimulateTxLaw | baseapp/baseapp.go:754-765 | nothing but the meter of the check state changes |
| CallLaws.DeliverTxLaw | baseapp/baseapp.go:715-735 | only the deliver state and its meters change, by one transaction |
| CallLaws.EndBlockLaw | baseapp/baseapp.go:983-999 | only the deliver state changes, by the end blocker |
| CallLaws.CommitLaw | baseapp/baseapp.go:1002-1042 | exactly when Commit halts, on header and configuration; else what is committed key by key, and the reset |
| CallLaws.QueryLaw | baseapp/baseapp.go:571-629 | what a querier sees, what it answers, and that nothing changes |
| CallLaws.BlockGasOfBlock | baseapp/baseapp.go:670-917 | in a block under a limit above zero the meter is the sum of the charges from zero on, less than the last charge past the limit |
| BaseApp.BaseApp.InitChain | baseapp/baseapp.go:384-426 | stores the parameters, makes both layers new over the root and runs the initializer, as the state machine says |
| BaseApp.BaseApp.BeginBlock | baseapp/baseapp.go:631-690 | refuses a wrong height or gas limit; else keeps or makes the deliver layer, gives it a block meter and runs the begin blocker |
| BaseApp.BaseApp.CheckTx | baseapp/baseapp.go:694-713 | changes the check layer only, and answers as the plain transaction |
| BaseApp.BaseApp.Simulate | baseapp/baseapp.go:754-765 | changes no layer, and answers as the plain transaction |
| BaseApp.BaseApp.DeliverTx | baseapp/baseapp.go:715-735 | changes the deliver layer only, by one transaction, and answers with its result |
| BaseApp.BaseApp.EndBlock | baseapp/baseapp.go:983-999 | runs the end blocker on the deliver layer |
| BaseApp.BaseApp.Commit | baseapp/baseapp.go:1002-1042 | halts with the state unchanged, or writes the deliver layer to the root, empties the transient stores, raises the version and makes the check layer new |
| BaseApp.ClearTransientStores | store/transient/store.go:26-29 | a commit empties exactly the transient stores |
| BaseApp.LoadVersion | store/rootmulti/store.go:249-269 | the trees as a past version had them beside the live stores of the root, or an error exactly when some tree lacks the version |
| BaseApp.QueryLoaded | baseapp/baseapp.go:605-614 | a querier on a cache over those stores leaves the root's content, live stores included, as it was |
| BaseApp.BaseApp.Query | baseapp/baseapp.go:571-629 | runs on a cache that is dropped, or fails to load: the application's state stays the same, both its layers stay coherent, and the answer is the querier's on the plain state |
| BaseApp.BaseApp.SetDeliverState | baseapp/baseapp.go:318-324 | a deliver layer that reads as the root, apart from the check layer |
| BaseApp.BaseApp.ResetCheckState | baseapp/baseapp.go:306-315 | a check layer that reads as the root as it now is |
| BaseApp.BaseApp.Replay | baseapp/baseapp.go:384-1042 | every run of ABCI calls on real caches goes as the run of the plain state machine, answer for answer, with both layers coherent throughout |
| Prefix.PrefixEndBytes | store/types/utils.go:60-81 | the keys from the prefix up to the result, or unbounded, are exactly those that start with the prefix |
| Prefix.InclusiveEndBytes | store/types/utils.go:85-88 | the slice with a zero byte behind it: in the caller's array, whose next byte is overwritten and no other, or in a new one when there is no room |
| Prefix.InclusiveEnd | store/types/utils.go:85-88 | a range up to the key with a zero byte behind it holds the keys up to and with that key |
| Prefix.StrippedRange | store/prefix/store.go:84-115 | a range of the parent with the prefix stripped is the range of the map under the prefix, in both directions and for any start and end |
| Prefix.IsolatedIff | store/prefix/store.go:36-42 | two prefix stores never interfere exactly when neither prefix starts with the other |
| Prefix.PrefixIterator.Next | store/prefix/store.go:146-154 | moves to the next entry under the prefix, or panics when invalid |
| Prefix.PrefixIterator.Key | store/prefix/store.go:157-164 | the current key without the prefix |
| Prefix.PrefixStore.Get | store/prefix/store.go:60-63 | the value in the map under the prefix |
| Prefix.PrefixStore.Set | store/prefix/store.go:71-75 | updates one key of the map under the prefix, and no map under a prefix unrelated to it |
| Prefix.PrefixStore.Delete | store/prefix/store.go:78-80 | removes one key of the map under the prefix, and touches no map under a prefix unrelated to it |
| Prefix.PrefixStore.Iterator | store/prefix/store.go:84-115 | yields exactly the range of the map under the prefix, in order |
| IavlVersions.KeptNext | store/iavl/store.go:112-121 | one more commit saves one version and lets go of at most one |
| IavlVersions.Store.Commit | store/iavl/store.go:103-127 | never panics; keeps the stored versions exactly the last, the recent ones before it and the multiples of the interval, each with the content it was committed with |
| IavlVersions.Store.Commits | store/iavl/store.go:103-127 | the same over any run of commits |
| IavlVersions.Store.GetImmutable | store/iavl/store.go:85-100 | the content of a past commit exactly if pruning left it |
| IavlVersions.Store.GetHeight | store/iavl/store.go:214-225 | height zero names a stored version after the first commit: the one before the last where it is stored, else the last |
| IavlIterator.StepInv | store/iavl/store.go:355-466 | every step of producer, init routine and callers keeps the invariant that ties channels, mutex, fields and what callers saw |
| IavlIterator.OneReceiver | store/iavl/store.go:371-456 | at most one goroutine receives from the channel |
| IavlIterator.EveryRunFromStart | store/iavl/store.go:339-466 | in every interleaving setNext and setInvalid do not panic, there is one receiver, and callers see the entries in order, none lost or repeated, until the end or Close |
| IavlIterator.ClosedMovesOn | store/iavl/store.go:355-374 | after Close the background goroutines can always take a step until both are done |
| IavlIterator.BackgroundEnds | store/iavl/store.go:355-374 | whatever callers do, the background goroutines take a bounded number of steps |
| IavlIterator.CloseFinishes | store/iavl/store.go:424-426 | from any state after one Close a bounded run of the background goroutines ends them both |
| IavlIterator.CallsMoveOn | store/iavl/store.go:382-422 | while any call is under way some goroutine can take a step that neither starts a call nor closes |
| IavlIterator.StepLowers | store/iavl/store.go:355-466 | every step but the start of a call and Close lowers the number of steps left |
| IavlIterator.RunsAreBounded | store/iavl/store.go:355-466 | in every run the steps that neither start a call nor close are at most those left at first plus eight for each call started |
| IavlIterator.CallsFinish | store/iavl/store.go:382-422 | from any state all calls under way can be brought to their ends, within the steps left, without a new call and without Close |
| IavlIterator.ProducerWaits | store/iavl/store.go:336-338 | without Close an entry nobody asks for keeps the producer waiting |
| Decimal.NearestEvenUnique | types/decimal.go:403-434 | the nearest integer with ties to even is unique |
| Decimal.ChopRound | types/decimal.go:403-434 | the nearest integer with ties to even, for either sign |
| Decimal.ChopPrecisionAndRound | types/decimal.go:403-434 | the in-place rounding leaves that integer in its argument |
| Decimal.ChopRoundUp | types/decimal.go:436-457 | the ceiling, for either sign |
| Decimal.ChopPrecisionAndRoundUp | types/decimal.go:436-457 | the in-place form leaves the ceiling |
| Decimal.ChopTruncate | types/decimal.go:481-483 | the whole part, toward zero |
| Decimal.ChopPrecisionAndTruncate | types/decimal.go:481-483 | the in-place form leaves the whole part |
| Decimal.Ceil | types/decimal.go:511-529 | the least whole number not below |
| Decimal.MulAndSub | types/decimal.go:213-231 | a product is the nearest unit to the exact one, ties to even, and panics exactly when that needs more than 315 bits; a difference is exact |
| Decimal.QuotientPanics | types/decimal.go:265-310 | quotients panic on zero, the truncated one besides exactly when the exact quotient reaches 2^315 units, the others within a unit of that |
| Decimal.QuoError | types/decimal.go:265-279 | in units, the quotient is within one half plus 10^-18 of the exact one |
| Decimal.QuoNearestIff | types/decimal.go:265-279 | the quotient is a nearest unit exactly unless the scaled quotient is a tie over an even unit that hides a remainder |
| Decimal.HiddenTieExists | types/decimal.go:265-279 | 10^-18 over 1.999999999999999999 comes out as zero |
| Decimal.QuotientsInOrder | types/decimal.go:265-309 | where the exact quotient is not negative: truncated, rounded, rounded up, each at most the next, all within one unit; where it is negative, rounding up is truncating and rounding is that or one unit below |
| Decimal.QuoTruncateExact | types/decimal.go:281-295 | for operands of any sign the truncated quotient is the whole part of the exact one, with its sign |
| Decimal.QuoRoundUpError | types/decimal.go:297-310 | for operands of any sign the rounded-up quotient is short of the exact one by less than 10^-18 units, and less than one unit above it |
| Decimal.QuoRoundUpIff | types/decimal.go:297-310 | for operands of any sign it is short exactly when the exact quotient is positive and the scaled one is a whole number of units and hides a remainder |
| Decimal.QuoRoundUpShort | types/decimal.go:297-310 | an input on which it is short |
| DecimalText.String | types/decimal.go:336-387 | both buffer-filling cases give sign, whole digits, point and eighteen digits |
| DecimalText.PrintForm | types/decimal.go:336-387 | a minus exactly below zero, whole digits without a zero in front unless that is all, a point and exactly eighteen digits, which make up the number |
| DecimalText.ParseMeaning | types/decimal.go:128-177 | an optional minus, digits, and nothing more or a point and one to eighteen digits parse to the number they stand for |
| DecimalText.ParseIff | types/decimal.go:128-177 | exactly which texts parse, and to which number; besides the promised form those with a second sign |
| DecimalText.ParseErrors | types/decimal.go:128-177 | which error a text gets: empty, more than one point, a point at an end, more than eighteen decimals |
| DecimalText.OddTexts | types/decimal.go:128-177 | two texts outside the promised form that parse |
| DecimalText.RoundTrip | types/decimal.go:128-387 | every decimal of either sign and any size parses back from its text |
| Coins.IsValid | types/coin.go:205-237 | true exactly for sorted sets of positive amounts whose first denomination is valid |
| Coins.SearchIsLookup | types/coin.go:482-507 | binary search finds what linear lookup finds on sorted sets |
| Coins.SameAmounts | types/coin.go:205-237 | a sorted set without zeros is determined by its amounts |
| Coins.RemoveZeroCoins | types/coin.go:557-570 | leaves the coins that are not zero, in order, at the front of the slice, touches nothing outside it, and changes nothing where there is no zero |
| Coins.SafeAdd | types/coin.go:257-303 | the merge of two slices, which may share an array; slices without zeros stay as they were |
| CoinLaws.MergeIsSum | types/coin.go:257-303 | on sorted sets the merge panics exactly when an amount outgrows the limit, and else is the pointwise sum, sorted and without zeros |
| CoinLaws.AddCommutes | types/coin.go:248-303 | addition commutes, panics included |
| CoinLaws.AddAssociates | types/coin.go:248-303 | addition of valid sets is associative, panics included |
| CoinLaws.AddKeepsValid | types/coin.go:246-303 | the sum of valid sets is valid |
| CoinLaws.UnreadableDenom | types/coin.go:205-237 | the set of AB and ~ is valid, and looking up its second denomination panics |
| CoinLaws.SafeSubLaws | types/coin.go:331-345 | on valid sets subtraction does not overflow, is the pointwise difference, and reports a negative amount exactly when something is not covered |
| CoinLaws.SubPanicsIff | types/coin.go:331-338 | `Sub` panics exactly when something is not covered |
| CoinLaws.SubThenAdd | types/coin.go:248-345 | subtracting a covered set and adding it back gives the first set |
| CoinLaws.IsAllGTE | types/coin.go:375-391 | true exactly when every amount is covered, the condition under which `SafeSub` reports no negative; panics exactly when a denomination that cannot be looked up comes before any shortfall |
| DecCoins.TruncateCoin | types/dec_coin.go:115-119 | whole part and change below one make up the coin; panics exactly when no coin can hold the whole part |
| DecCoins.TruncateDecimal | types/dec_coin.go:173-190 | whole coins and change make up the set in every denomination, change is below one, no zero coin in either |
| DecCoins.IsValid | types/dec_coin.go:469-504 | true exactly for sorted sets of positive amounts whose first denomination is valid and whose others have no upper case |
| DecCoins.AddValidIff | types/dec_coin.go:186-250 | the sum of valid decimal sets is sorted and positive, and valid exactly when the greater of their first denominations, if they differ, has no upper case |
| DecCoins.UpperCaseSum | types/dec_coin.go:192-194 | AB and AC, each valid alone, whose sum is not valid |
| DecCoins.Intersect | types/dec_coin.go:291-301 | the smaller amounts with zeros removed; panics exactly when a denomination of the first set cannot be looked up |
| DecCoins.IntersectLaws | types/dec_coin.go:286-301 | that is the smaller amount in every denomination, sorted and positive, and a valid decimal set if the first one is |
| Bank.Keeper.SendCoin | x/transfer/keeper/send.go:92-107 | moves one coin, or refuses without effect exactly on an invalid coin or a balance too small |
| Bank.Keeper.SendCoins | x/transfer/keeper/send.go:110-125 | the loop leaves what sending the coins in order leaves, and how many were moved |
| Bank.SendAllLaws | x/transfer/keeper/send.go:92-125 | coins move up to the first that the sender cannot give (refused) or the receiver cannot take (overflow), told from the balances before; exactly those before it are moved, and all of them exactly on success; an overflow leaves that coin taken and not given |
| Bank.SendToSelf | x/transfer/keeper/send.go:92-125 | from an account to itself nothing moves and nothing overflows; refused exactly at the first coin the account does not hold |
| Bank.SentIff | x/transfer/keeper/send.go:92-125 | a valid set moves whole exactly when its denominations are valid, the sender covers it and the receiver's balances fit an Int |
| Fees.SettleQuota.Consume | types/context.go:243-257 | grants by the recorded gas plus the new, wrapping at 64 bits; what is recorded stays the sum of the grants within the limit exactly unless a wrapped sum gets through, which gas and limit below 2^63 exclude |
| Fees.FractionInRange | x/custodianunit/ante.go:187-188 | with gas below 2^63 the refund fraction is from zero to one and only a quotient by zero can fail |
| Fees.FractionIsUnused | x/custodianunit/ante.go:187-188 | the fraction is the unused part of the gas wanted, within the rounding of one quotient |
| Fees.NothingUnused | x/custodianunit/ante.go:187-188 | gas that is used up leaves a fraction of zero |
| Fees.FractionFalls | x/custodianunit/ante.go:187-188 | the more gas is used, the smaller the fraction |
| Fees.FourFifths | x/custodianunit/ante.go:187-188 | 100000 wanted and none used: the fraction is 0.8 |
| Fees.SharedOfUnused | x/custodianunit/ante.go:187-192 | in every denomination the shares of the fee are the exact unused share, within the rounding of the fraction and of each coin |
| Fees.RefundIsUnusedShare | x/custodianunit/ante.go:183-194 | the same of what a refund sends |
| Fees.FractionWithinLimit | x/custodianunit/ante.go:183-188 | gas used within the gas wanted keeps a due refund away from the quotient by zero |
| Fees.FractionByZero | x/custodianunit/ante.go:183-188 | gas wanted 0 and gas used 2^64 - 20000: a refund is due and its quotient is by zero |
| Fees.ShareIsExact | x/custodianunit/ante.go:191 | the decimal product cut to a whole number is the exact share rounded down, and at most the amount |
| Fees.RefundCoins | x/custodianunit/ante.go:189-196 | the loop adds up the shares of any list of fee coins |
| Fees.RefundSetLaws | x/custodianunit/ante.go:189-196 | for any list of fee coins not below zero the refund holds in every denomination exactly the shares, sorted and without zeros; it panics exactly on an invalid denomination or shares that outgrow an Int |
| Fees.ChargeFee | x/custodianunit/ante.go:127-141 | for any list of fee coins not below zero: free exactly for a zero fee or a settle transaction of an active key node within its quota; else the fee is sent coin by coin |
| Fees.DeductedInFull | x/custodianunit/ante.go:127-141 | a deducted fee moved in full, with valid denominations and totals that fit an Int |
| Fees.RefundGas | x/custodianunit/ante.go:177-201 | nothing, a panic, or the send of the refund, whose result is not looked at |
| Fees.RefundLaws | x/custodianunit/ante.go:177-201 | exactly when a refund is due and when it panics before sending; what it sends is a valid set, in every denomination the shares of the fee and at most the fee |
| Fees.PaidInFullIff | x/custodianunit/ante.go:194-199 | the whole refund moves exactly when the collector covers it in every denomination and no balance of the payer outgrows an Int; else exactly the coins before the first that fails |
| Fees.PaidInPart | x/custodianunit/ante.go:194-199 | a refund of two denominations of which one is paid |
| Fees.DeliverFees | x/custodianunit/ante.go:127-201 | for any list of fee coins not below zero, around messages of any effect, the collector gains between zero and the fee, the payer loses what the collector gains, and a refund is paid only where the fee was deducted |
| Numerals.ConvertBack | base58/base58.go:24-82 | changing the base there and back, leading zeros kept, is the identity |
| Base58.Encode | base58/base58.go:56-82 | the loops compute the change of base to the alphabet with leading zeros kept |
| Base58.Decode | base58/base58.go:24-53 | the loops compute the change of base back, or the empty string where a byte is not in the alphabet |
| Base58.HighestFirst | base58/base58.go:76-79 | the swap loop reverses the buffer |
| Base58.Symbol | base58/alphabet.go:9-14 | the symbol of a digit, whose table entry is that digit |
| Base58.SymbolOfIndex | base58/alphabet.go:20-53 | the symbol of a table entry is the byte it was looked up with |
| Base58.SymbolsOfAlphabet | base58/alphabet.go:9-14 | every digit's symbol is that character of the alphabet |
| Base58.SameNumber | base58/base58.go:56-82 | a text stands for the number of its bytes, with as many zeros in front |
| Base58.DecodeEncode | base58/base58.go:24-82 | decoding inverts encoding on every byte string |
| Base58.EncodeDecode | base58/base58.go:24-82 | encoding inverts decoding on every string over the alphabet |
| Address.CheckDecodeIff | base58/base58check.go:43-62 | a string check-decodes exactly when it decodes to at least five bytes whose last four are the checksum of the others, and which error it is otherwise |
| Address.CheckEncodeHolds | base58/base58check.go:33-40 | the text decodes to version, payload and the checksum of both |
| Address.CheckRoundTrip | base58/base58check.go:33-62 | for every checksum function, what was check-encoded decodes to its payload and version |
| Address.CheckUnique | base58/base58check.go:33-62 | a string that check-decodes is the encoding of its result |
| Address.PrefixInBase58 | base58/base58check.go:60-62 | 27 bytes that start 2, 16, 66 have 36 digits in base 58, the first three those of HBC |
| Address.Printed | types/address.go:228-238 | every address prints as 36 characters that start with HBC |
| Address.StringHolds | types/address.go:228-238 | the text of an address decodes to prefix, address and the checksum of both; other lengths have no text |
| Address.ParseIff | types/address.go:125-153 | exactly which texts are addresses, and of what |
| Address.ParseErrors | types/address.go:125-153 | which error any other text gets |
| Address.BlankIff | types/address.go:125-129 | a text is blank exactly when it is nothing but white space |
| Address.RoundTrip | types/address.go:125-238 | an address parses back from its text |
| Address.OneTextForm | types/address.go:125-153 | a string that is not blank and parses is the text of its result |
| Address.TextsDiffer | types/address.go:228-238 | different addresses have different texts |

## Left out

- IAVL tree internals, Merkle proofs, amino coding, SHA-256 and signature checks: a tree is a sorted map, a checksum is any function.
- Nil keys and values, on which the stores panic: the types have none.
- Mutexes of the cache: each of its methods is one step. Only the tree iterator is interleaved.
- Caches over prefix stores: a prefix store sits on a tree or a cache, not under one.
- Handlers: each run is finite, cut short by a panic after a number of steps that is part of the handler.
- Handlers.Exec: gas for store access is not charged by itself; a handler charges gas as explicit steps.
- Transactions that do not decode, which CheckTx and DeliverTx turn away before `runTx`.
- The check of validator updates after the chain initializer, validator updates, vote infos, events, logs and tracing.
- BaseApp.BaseApp.Query: what each tree held at the version asked for is a parameter, whose side `IavlVersions` models; routing errors, proofs, and the application, peer and raw store queries are not modelled.
- The settle quota, fees and signatures as part of the ante handler in `BaseApp`: there the ante handler is arbitrary; `Fees` models its fee part on its own.
- EnsureSufficientMempoolFees, SetGasMeter, signature counting and memo length in the ante handler: easy members.
- Fees.ChargeFee: what a rejected or crashed charge leaves in the balances is not stated, because the ante handler's cache is dropped then.
- Fees.DeliverFees: the payer is not the fee collector, a module account that signs nothing.
- DecCoins.IsValid: which strings `strings.ToLower` leaves alone is a parameter, fixed on ASCII where a result depends on it.
- DecCoins.TruncateDecimal: the additions of single coins use the meaning of `safeAdd` that `Coins.SafeAdd` is proved to have, not the slices themselves.
- IavlVersions.Store.Commit: pruning numbers below zero are not modelled, and saving a version does not fail.
- Base58.Symbol: the alphabet and its table are given as ranges of bytes, not as the 58-character string and the 256-entry table.
- `PrependedBytes` and `EncodeFromBigInt`, whose digit estimate does not hold for all sizes.
- Sorting coin sets, parsing coins, the other comparisons of coin sets, JSON and YAML.
- The modules for governance, distribution, evidence, staking and transfers beyond `SendCoins`; CLI, REST and RPC.
