# cosmos-worker, verified

A Dafny model of the part of cosmos-worker that turns a request ("give me heights a to b", "give me what
is new") into a numbered stream of blocks and transactions.

The centre is the concurrent range fetcher of `client/client.go`. One request is a producer
(`populateRange`), a number of workers (`asyncBlockAndTx`), the consumer loop of `getRange` with the tail of
`GetTransactions`, and a sender (`sendResp`). They talk over bounded channels, and the channels of all
concurrent requests are recycled through the two pools of `client/pool.go`. Every channel operation is one
action, so an execution is any interleaving. Around this core stand the block cache, the pagination and
conversion of transactions, the amount parser with the transfer extractor, and the polling arithmetic.

| file | contents |
|---|---|
| `RangeProtocol.dfy` | the actions of one request, and the sequential listing it stands for |
| `RangeInvariant.dfy` | the invariant of a request, kept by every action |
| `RangeResults.dfy` | what the invariant says about the output, about failures and about the producer |
| `RangeProgress.dfy` | no deadlock; an exact count of the steps a request has left |
| `SharedPools.dfy` | any number of requests over shared, recycled channels: a refinement to private channels |
| `ChannelPools.dfy` | the pools as objects: Get, Put and the drain loop |
| `Executions.dfy` | whole executions: safety, channel ownership, termination |
| `Placement.dfy` | which response stands at which place of what a request writes and sends |
| `Conservation.dfy` | no channel is lost, no pool overflows |
| `Schedules.dfy` | building executions, used to show that a bad state can be reached |
| `ErrorPath.dfy` | after the error signal: the right Error, and no message of a later height lost |
| `ErrorSchedules.dfy` | schedules that spend the error signal on a chosen send |
| `ErrorWait.dfy` | exactly when a request can, and must, wait for ever after an Error |
| `CleanUp.dfy` | what a failed request that returns puts into the pool, and what that does to later requests |
| `Cancellation.dfy` | exactly when a cancelled request blocks for ever |
| `Windows.dfy` | the uint64 polling window, the producer's heights, series of polls |
| `BlockCache.dfy` | the FIFO block cache and the read-through `GetBlock` |
| `Transactions.dfy` | `SearchTx`, `findLog`, `rawToTransaction` |
| `Currency.dfy`, `Text.dfy` | the currency pattern, `GetCoin`, coin lists; decimal numerals, splitting |
| `Transfers.dfy` | `produceTransfers` |
| `Pipeline.dfy` | `blockAndTx` over cache and pager; what a finished request has sent, end to end |
| `Structs.dfy` | shared records |

`dafny verify dfyconfig.toml` checks the whole project.

## How the source is read

- A request's configuration fixes the outcome of fetching each height. A request fetches a height at most
  once, so this covers every assignment of outcomes, including failures that a cancellation causes. The
  number of workers and the capacity of every channel are parameters of at least one; `GO_LIMITS` holds the
  values of the source.
- The `break`s at client/client.go:577 and client/client.go:583 leave only the `select`. After an error the
  producer therefore goes on: the action `PSkip` consumes the error signal and skips one send.
- `populateRange` is a do-while loop and always emits the start height; it stops only if the end is below
  the largest uint64 (`ProducerStopsIff`), which `ValidConfig` asks for. It appears twice: as the producer of
  the step system, which shares channels and takes the error signal, and in `Windows` as the loop that emits
  the heights of a range, wrap-around of the start included; `SameProducer` says that they send the same.
- `SimpleBlockCache.Get` is modelled as written: it looks up height 0 whatever height it is asked for
  (api/block_cache.go:52), against its own comment. `GetIsLookup` says exactly when that agrees with the
  comment, `CachedBlockIsMissed` that it misses every block of a chain, and `WrongBlock` the harm a cached block
  of height 0 would do. Transparency is proved for the code as it is (`GetBlocks`) and for the lookup the comment
  describes (`ReadThroughIsTransparent`). A capacity of zero would make `Add` block, so caches have a capacity of
  at least one.
- `big.Int.SetString` leaves its receiver unspecified on a malformed string; a parsed number is optional.
- A run keeps some history beside the program state: which channel each height holds, the heights taken, all
  that was written, what the error signal was spent on (`spent`), and whether a height was fetched after the
  cancellation (`late`).
- A request that has forwarded an Error stays at `wg.Wait`. If it gets past that wait and its producer is done (always
  so with fewer failing heights than workers), only its sender still moves (`ReturnedIsQuiet`), and all its clean-up
  does to others is to give channels to the pools: drained response channels, nil for the Last marker, and the ordering
  channel. These gifts are events of their own, which may come at any time (`Executions.History`), so safety holds of
  all states that occur with them. A gift is a new channel that stands for the one given back, since nobody uses that
  one any more. What a nil in the pool does to later requests is said in `CleanUp`.
- A range that starts at height 0 asks `GetBlock` for height 0, which means "the newest block" (api/block.go:47), so it
  sends the newest block first, in place of a block of the range (`NewestBlockFirst`). A first poll on a chain of
  exactly max blocks gets such a range (`FirstPollOfAllFails`).
- `oRespPool.Get`, `oRespPool.Put` and `oHBTxPool.Put` are actions of their own. The two `oHBTxPool.Get`
  calls at the head of `getRange` are one action.

Where a promise does not hold of the code, the code is kept and the exact condition is proved:
`HangsExactlyWhen`, `AlwaysHangsExactlyWhen` and `TenMoreHeightsHang` (getRange may, or must, never return after an
Error), `NilExactlyWhen`, `NilIsPut` and `NilStops` (when it returns it can put nil into the pool or panic, and a
request that draws the nil stops), `FinishedRequestSentTheChain` and `FinishedPollSentTheWindow` (ranges from height 0),
`BlocksExactlyWhenTooLong` (it may block for ever after a cancellation), `CoinListRoundTrip` (which coin lists are read back),
`WindowIsRange` (wrap-around of the polling window), `PollingIsGapFree` (when polling misses heights),
`GetIsLookup` (the cache).

## Model

| member | source | states |
|---|---|---|
| `RangeInvariant.StepKeeps` | client/client.go:458-597 | Every action of every goroutine keeps the invariant of a request: each live height owns an open channel; each message of each live height has been read, lies in that height's channel, or is still with the one worker holding it; what was written is what the consumer's position says; what was sent is a numbered prefix of what was written. |
| `RangeInvariant.InitInv` | client/client.go:499-513 | A request that has just obtained two open, empty channels and started its goroutines meets the invariant. |
| `RangeInvariant.DoneWithHeight` | client/client.go:526-539 | When the consumer gives a height's channel back, the height was taken, no worker still holds it and its channel is empty. |
| `RangeProtocol.ListingSplit` | client/client.go:515-541 | The sequential listing up to a height whose predecessors are all fetched is the concatenation of their blocks and transactions, followed by the listing from that height. |
| `RangeResults.WrittenIsPrefix` | client/client.go:515-541 | Whatever the interleaving and whatever fails, what is written to `out` is a prefix of the listing "Block(h), then Txs(h), for ascending h, with one Error at the first failing height". |
| `RangeResults.ListingShape` | client/client.go:526-537 | The listing holds blocks, transactions and at most one Error, which is last; Partial and Last markers never appear. |
| `RangeResults.CallsAreNumberedPrefix` | client/client.go:600-651 | At every moment the Send calls are the next responses of the listing under consecutive numbers from 0, with END, if sent, carrying their count. |
| `RangeResults.FailureIsFirst` | client/client.go:526-537 | A forwarded Error is that of the smallest failing height, after everything below it in full and nothing else. |
| `RangeResults.FailureIsDeterministic` | client/client.go:458-541 | If one schedule of a request forwards an Error then no schedule of it succeeds, and any two that fail agree on the Error and on all that was written. |
| `RangeResults.SuccessIsComplete` | client/client.go:519-523 | The consumer gets past the Last marker only if every height was fetched and written in full. |
| `RangeResults.FinishedRequest` | client/client.go:168-194 | A request that ended without cancellation made the Send calls 0..n-1 with the whole listing and then one END numbered n. |
| `Placement.EveryCallIsInPlace` | client/client.go:458-659 | In every state that occurs the first n calls of a request carry, at the place of each height up to the first that cannot be fetched, its block and then its transactions one by one in their order, or its Error, each under the number of its place; END, if sent, follows with their count; nothing comes after the Error or the last height, and an uncancelled request that is done has sent all of it. |
| `Placement.EveryResponseIsInPlace` | client/client.go:470-491 | The same places hold for what is written to `out`: the block of a height, then its i-th transaction i + 1 places later, or the Error of the first height that cannot be fetched, after which nothing is written. |
| `RangeResults.ProducerHistory` | client/client.go:569-597 | Until the error signal, the work channel gets the heights of the ordering channel in ascending order without gap, at most one behind; the only Last is at the end, and the work channel is then closed. |
| `RangeResults.AllExitedMeansDrained` | client/client.go:458-469 | A worker returns early only on a failing height of its own: with fewer failing heights than workers, all have returned only when the producer is done and the work channel is closed and drained. |
| `RangeProgress.ReaderIsServed` | client/client.go:460-491 | If the consumer reads a height that was queued, and its channel is not nil, it or a worker can move without the producer; workers that died at greater heights cannot starve it. |
| `RangeProgress.NextAction` | client/client.go:499-597 | No deadlock: an uncancelled request that is not finished, has not forwarded an Error and does not read a nil channel has an action it can take, for any capacities of at least one and blocks of any size. |
| `RangeProgress.StepCounts` | client/client.go:458-659 | Every action other than the cancellation itself takes at least one step off the number of steps left, whatever fails or is cancelled, and exactly one before the error signal and without cancellation. |
| `RangeProgress.StepsLeftSign` | client/client.go:458-659 | The number of steps left is never negative, and zero exactly when producer, workers, consumer and sender have all finished. |
| `RangeProgress.ErrorWaitMoves` | client/client.go:543-544 | While getRange waits after an Error, a worker or the producer can move until all workers have returned, unless a worker is stuck at a full channel, or the producer is blocked at the full ordering channel while an idle worker has nothing to take. |
| `SharedPools.StepRefines` | client/pool.go:26-88 | Sharing and recycling channels is invisible: each step of the system is one step of one request on private channels, the private view of every other request is unchanged, and the system invariant is kept, nil response channels in pool and requests included; starting a request disturbs nobody. |
| `SharedPools.GetOk` | client/pool.go:26-38 | Get hands out an open, empty channel that is no longer pooled, and draining a recycled channel discards nothing. |
| `SharedPools.PutOk` | client/pool.go:40-50 | Putting an open, empty, unpooled channel keeps every pooled channel open, empty and present once. |
| `SharedPools.PuttingIsReady` | client/client.go:539 | The channel being recycled is the height's own and is empty. |
| `SharedPools.ReleasingIsReady` | client/client.go:565 | The ordering channel being returned is open and empty. |
| `ChannelPools.ChannelPool.Drain` | client/pool.go:90-109 | The drain loop empties the channel and touches nothing else. |
| `ChannelPools.ChannelPool.Get` | client/pool.go:26-38 | Get is the pool operation of the shared system: the oldest pooled channel, drained, or a new one of the fixed capacity. |
| `ChannelPools.ChannelPool.Put` | client/pool.go:40-50 | Put keeps the channel while there is room and otherwise closes it, as in the shared system; a nil channel is kept like any other, and panics when the pool is full. |
| `Executions.OccursInv` | client/client.go:499-566 | Every state that can occur, with any number of requests started at any time and interleaved in any way, and with the clean-ups of failed requests whose producer is done, meets the system invariant. |
| `Executions.GiftKeeps` | client/client.go:543-565 | What such a clean-up gives to the pools, nil included, keeps the invariant and changes what no request sees. |
| `Executions.EveryRequestIsSequential` | client/client.go:458-659 | In every state that occurs every request has written a prefix of its listing and sent a numbered prefix of it, all of it and END once it is done uncancelled; no goroutine has sent on or closed a closed channel. |
| `Executions.OneHolderPerChannel` | client/client.go:539-573 | In every state that occurs a response channel is pooled (open, empty, once, nobody about to write to it) or held by exactly one height of one request, never both. |
| `Executions.OneRequestPerQueue` | client/client.go:502-565 | In every state that occurs an ordering or work channel is pooled (open, empty, once) or used by exactly one request. |
| `Conservation.NoChannelIsLost` | client/pool.go:26-88 | In every state that occurs every channel ever made is in its pool, was closed, or belongs to a request, and no pool holds more than its capacity. |
| `Executions.EveryRequestCanMove` | client/client.go:499-597 | No request is blocked by the others: unfinished, uncancelled and without a forwarded Error, one of its own goroutines can move, unless it reads a nil channel that a failed request has left in the pool. |
| `Executions.ExecutionsAreBounded` | client/client.go:458-659 | Every execution without new requests and cancellations is finite: no longer than the steps its requests have left. |
| `Executions.MaximalExecutionsFinish` | client/client.go:458-659 | From any state that meets the invariant and over any mix of failing, cancelled and successful requests, a schedule without new requests and cancellations that goes on as long as it can takes no more steps than its requests had left, and ends with every uncancelled request having sent its whole numbered listing, followed by END if no height of it fails, otherwise ending with the Error of its smallest failing height, exactly unless it reads a nil channel. If there is no nil channel, no height fails and nothing is cancelled, all such schedules take exactly the same number of steps. |
| `Executions.StuckIsConcluded` | client/client.go:458-659 | When nothing in the system can move, each uncancelled request has sent everything and END, or stands after the forwarded Error of its smallest failing height with everything written and sent, according to whether a height of it fails, exactly unless it reads a nil channel. |
| `ErrorPath.EveryErrorIsTheFirst` | client/client.go:530-534 | In the shared system too, the forwarded Error is that of the request's smallest failing height, after everything below it. |
| `ErrorPath.NothingIsLost` | client/client.go:458-491 | After the error signal, in every reachable state, all messages of each later height that was given a channel and not kept from the workers are in that channel or still with a worker or the queue. |
| `ErrorPath.ReturnedIsQuiet` | client/client.go:543-566 | Once a failed request is past its wait and its producer is done, only its sender moves, and none of its channels is touched any more. |
| `ErrorWait.HangsExactlyWhen` | client/client.go:543-597 | For any request with a failing height, h the first: some schedule forwards its Error and then never gets past `wg.Wait` if and only if there is a way to spend the error signal (on a send to the ordering channel, or of one of the next itemCap heights to the workers) that leaves too few failing heights to kill all workers before the ordering channel overflows or an oversized block is taken. With fewer failing heights than workers: if and only if at least itemCap heights follow h or one of the next itemCap + 1 blocks has more messages than a response channel holds. |
| `ErrorWait.AlwaysHangsExactlyWhen` | client/client.go:543-597 | Every schedule that forwards the Error, and there is one, waits for ever after it if and only if every way to spend the error signal does so. With fewer failing heights than workers and no oversized block among the next itemCap + 1: if and only if more than itemCap heights follow the failing one. |
| `ErrorWait.TenMoreHeightsHang` | client/client.go:543-597 | With the capacities of the source and a single unavailable first height, a request can hang exactly when its range is eleven heights or longer, and always hangs exactly when it is twelve or longer. |
| `ErrorWait.BigBlockHangs` | client/client.go:543-597 | With the capacities of the source, a request for two heights of which the first is unavailable can hang exactly when the second has 999 transactions or more. |
| `ErrorWait.ClearMoves` | client/client.go:543-544 | If what the signal was spent on does not hinder the request, workers and producer can move after the Error until all workers have returned. |
| `CleanUp.NilIsPut` | client/client.go:545-565 | With fewer failing heights than workers, a request that gets past the wait has a producer that is done; its clean-up hands to Put open channels of its own and after them nil, unless the error signal was spent on the Last marker. With the pool to itself, it leaves the nil in the pool if there is room for all of them, that is if the pooled channels and the later heights (but for one replaced by the signal) are fewer than the pool holds, and panics otherwise. |
| `CleanUp.GoPoolPanics` | client/pool.go:9-12 | With the pool of the source the clean-up panics exactly when the pooled channels and those handed back before the nil are twenty or more. |
| `CleanUp.NilExactlyWhen` | client/client.go:543-565 | For any request with a failing height: it can get past the wait with nil to put if and only if some way to spend the error signal does not hinder it and leaves room in the ordering channel for all that is due. With fewer failing heights than workers: exactly when not every schedule of it hangs; with no oversized block among the next itemCap + 1, exactly when at most itemCap heights follow the failing one. |
| `CleanUp.NilIsDrawn` | client/pool.go:26-38 | Get hands a pooled nil to the next height that asks for a channel, and the consumer of that request is not past that height. |
| `CleanUp.NilStops` | client/client.go:515-541 | Whatever happens later, a request one of whose heights was given nil never delivers that height or a later one and never finishes. |
| `Cancellation.BlocksExactlyWhenTooLong` | client/client.go:165-194 | A request can block for ever before it is finished or has forwarded its Error if and only if its listing is longer than the buffer of `out`; it can then be cancelled at a point from which none of its goroutines ever moves again, with no height fetched after the cancellation. |
| `Cancellation.FittingCanMove` | client/client.go:515-541 | Cancelled or not, a request whose listing fits in `out` can move until it is finished or has forwarded its Error. |
| `Cancellation.CancelledReturns` | client/client.go:184-194 | A cancelled request that is past its range returns by itself, whatever its sender is doing, and nothing more is sent meanwhile. |
| `Cancellation.LateMeans` | client/client.go:460-462 | What the history records as late: a height was fetched after the cancellation. |
| `Cancellation.EndedStays` | client/client.go:641-659 | Nothing is sent after END. |
| `Windows.WindowIsExact` | client/client.go:413-436 | For a known height that is not ahead of the chain, the window is [max(known, latest - max), latest] over the integers, cut at 0, if and only if a height is known or the chain is not shorter than max. |
| `Windows.WindowValue` | client/client.go:413-436 | For all uint64 inputs, a known height ahead of the chain included, the window over the integers: it ends with the newest block and starts where each branch and wrap-around of the code puts it. |
| `Windows.WindowIsRange` | client/client.go:413-436 | For all uint64 inputs, exactly when the window's start is not beyond its end. |
| `Windows.PopulateRange` | client/client.go:569-597 | Without an error signal the ordering and the work channel each get start, start+1, ..., max(start, end) once, in order; from the largest uint64 the loop wraps and goes on with 0, ..., end. |
| `Windows.SameProducer` | client/client.go:569-597 | The producer of the step system, left alone, sends the heights of that loop. |
| `Windows.ProducerStopsIff` | client/client.go:586-593 | The producer's loop stops exactly when the end is below the largest uint64. |
| `Windows.PollHeights` | client/client.go:380-403 | A poll enqueues at most max + 1 consecutive heights ending with the newest, starting at the known height or exactly max + 1 of them. |
| `Windows.ShortChainPoll` | client/client.go:415-422 | On a chain shorter than max a first poll asks for a single height, one that lies beyond the chain; if max is one more than the newest height it asks for the largest uint64 and then for 0, 1, ..., latest. |
| `Windows.PollingIsGapFree` | client/client.go:413-436 | A series of polls asks for every height from its first window to the newest block, and nothing else, exactly when the chain never grows by more than max + 1 between two polls. |
| `BlockCache.SimpleBlockCache.Add` | api/block_cache.go:25-45 | The map and the queue stay in step with a bounded FIFO list in which re-adding a present height changes nothing. |
| `BlockCache.SimpleBlockCache.Get` | api/block_cache.go:48-54 | Get finds a block exactly when one of height 0 is cached, and returns that block. |
| `BlockCache.CacheIsLastAdmitted` | api/block_cache.go:25-45 | After any sequence of Adds the cache holds the last cap blocks that were let in, in order, with distinct heights. |
| `BlockCache.GetIsLookup` | api/block_cache.go:47-54 | Get is the lookup its comment describes exactly when it is asked for height 0 or neither that height nor height 0 is cached. |
| `BlockCache.Client.GetBlock` | api/block.go:31-89 | The block comes from the cache on a hit; otherwise the rate limiter's error, or the node's latest block for height 0 and its block at the height for any other, is returned, and a success is added to the cache. |
| `BlockCache.HistoryIsTransparent` | api/block.go:31-89 | Whatever blocks of the chain are added, in whatever order, every entry is the chain's block at its height and no lookup hits. |
| `BlockCache.GetBlocks` | api/block.go:31-89 | Read-through transparency: over every history of calls, with a node of one chain that may answer differently each time and a limiter that may fail any call, each call returns the limiter's error or the node's present answer, and for each height h >= 1 a success is the chain's block at h. |
| `BlockCache.ReadThroughIsTransparent` | api/block_cache.go:47-54 | With the lookup that the comment on Get describes, where hits occur: every history of calls on such a node keeps only chain blocks in the cache, a cached height succeeds whatever limiter and node say, and every success by height is the chain's block. |
| `BlockCache.CachedBlockIsMissed` | api/block_cache.go:48-54 | On a cache of chain blocks, a block just added is in the cache and Get of its height misses it. |
| `BlockCache.WrongBlock` | api/block_cache.go:48-54 | Once a block of height 0 is added to any cache, a request for any other height gets a block of height 0, that one if there was none before, whatever the limiter and the node say. |
| `Transactions.FindLog` | api/transaction.go:178-191 | If there are more logs than the message's position, it returns the log at that position if that carries the position as a uint32, else the first log that does; in all other cases the empty log. |
| `Transactions.LogForFinds` | api/transaction.go:178-191 | A message gets a log of its own index exactly when there is one and there are more logs than its position. |
| `Transactions.EveryMessageGetsItsLog` | api/transaction.go:178-191 | On logs that are any permutation of the indexes every message gets its own log. |
| `Transactions.RouteOfUrl` | api/transaction.go:117-135 | A type URL is routed exactly when it has five parts starting with "/ibc" or four starting with "/cosmos" or "/tendermint"; the message type is its last part and the module the one two before it. |
| `Transactions.RawToTransaction` | api/transaction.go:88-176 | The loop over the messages succeeds exactly when the transaction marshals and every message, with the log findLog gives it, is routed and mapped without error, with or without logs; it then gives one aligned event for each message and the error event of a positive code, and otherwise the marshalling error or that of the first message that fails. |
| `Transactions.ConvertedExactlyWhen` | api/transaction.go:104-149 | The same condition and the same errors for the function that the loop is proved against. |
| `Transactions.ConvertAllExactlyWhen` | api/transaction.go:61-73 | A list converts if and only if each of its transactions does, to all of them in order and stamped; otherwise its error is that of the first that does not. |
| `Transactions.ConvertedShape` | api/transaction.go:111-173 | Success means one event for each message, each from that message, its position and the log found for it, and one trailing error event exactly when the code is positive. |
| `Transactions.EventsAreAligned` | api/transaction.go:111-173 | Whatever logs a transaction has, event i has id i without leading zero and is what message i is mapped to with its right log: one sub-event and the kind of its first type, or neither if it has no type; with one log per message in any order, that is the log of index i. The trailing error event carries the code space and the raw log; height and hash are those of the response, and the memo that of the body or empty. |
| `Transactions.OffsetIsExact` | api/transaction.go:39 | The offset is right even when the uint64 product wraps, as long as the offset itself fits. |
| `Transactions.ConvertLength` | api/transaction.go:61-73 | A converted list has one transaction for each raw one, in order, stamped with the block's hash, chain id and time. |
| `Transactions.SearchTx` | api/transaction.go:30-85 | Against a pager with a fixed list: success if and only if each request needed to read the list loads and each transaction converts; then all transactions, converted and stamped, in order without gap or duplicate, in exactly the needed requests. Otherwise the error of the last request made, all before it having loaded and converted: its failure to load, or that of the first transaction that does not convert. |
| `Transactions.SearchedMeans` | api/transaction.go:37-83 | The same, for the function of pages that the loop is proved against. |
| `Transactions.SearchedIsConverted` | api/transaction.go:37-83 | Pages succeed exactly when each can be loaded and all they cover can be converted, and then give exactly that. |
| `Currency.GetCurrencyIs` | api/util/currency.go:10-30 | GetCurrency gives the two groups of the leftmost match of the pattern and, among those, the one with the longest first group, character by character; nothing exactly if there is no match. |
| `Currency.SearchIsLeftmostLongest` | api/util/currency.go:10 | The matcher finds the leftmost match of the pattern and, among those, the one with the longest first group; it fails only if there is none. |
| `Currency.CurrencyIsDenom` | api/util/currency.go:28-30 | A currency is never empty and has no digit and no white space. |
| `Currency.GetCoinIsExact` | api/util/currency.go:12-26 | A signed decimal with integer digits a and fraction digits b, written with a dot or a comma, is read as the integer a * 10^len(b) + b, with its sign, and the exponent len(b). |
| `Currency.GetCoinReadsInteger` | api/util/currency.go:12-18 | A signed integer, leading zeros or not, is read as its value with exponent 0. |
| `Currency.GetCoinExactly` | api/util/currency.go:12-26 | For any string: with two separators or more GetCoin fails with its message; otherwise it gives the number that the string without its separator reads as, or none, and as exponent the count of characters after the separator as an int32. |
| `Currency.GetCoinFails` | api/util/currency.go:12-26 | GetCoin fails exactly on strings with two or more separators. |
| `Currency.CoinRoundTrip` | api/mapper/transfers.go:38-60 | One printed coin is read back, text, amount and currency, exactly when its denomination is readable: no digit, no space, not starting with an amount character unless it is that one character. |
| `Currency.ParseAmountIs` | api/mapper/transfers.go:38-60 | For any piece: its amount has the piece as its text, the second group of the best match as its currency and what the first group reads as; without a match the whole piece is read and the currency is empty; or the error that names the piece. |
| `Currency.CoinListRoundTrip` | api/mapper/transfers.go:37-61 | A printed coin list is read back, same texts, amounts and currencies in order, exactly when it is not empty and every denomination is readable and free of commas. |
| `Transfers.ReadAmounts` | api/mapper/transfers.go:36-61 | For every value: one amount for each comma-separated piece, in order, with the piece as its text and its number and currency read from it, or the error of the first piece that cannot be read. |
| `Transfers.ScanAttributes` | api/mapper/transfers.go:25-67 | The loop with its running recipient computes the transfers of one event, or the first parse error. |
| `Transfers.SubsetEvent.ProduceTransfers` | api/mapper/transfers.go:16-79 | On an error or an empty result nothing is stored; otherwise the transfers are stored under the type, and the other entries survive exactly when that type had one. |
| `Transfers.ExtractionIsExact` | api/mapper/transfers.go:19-68 | For any log, extraction succeeds exactly when every amount of a transfer event whose nearest preceding recipient is not skipped parses, and then gives one transfer for each of these, in order, with that recipient and those coins; otherwise its error is that of the first that does not parse. |
| `Transfers.ExtractionRoundTrip` | api/mapper/transfers.go:19-68 | Extracting an emitted log gives back, in order, exactly the payments that do not go to the skipped address. |
| `Transfers.ExtractionConserves` | api/mapper/transfers.go:19-68 | Per denomination, the extracted transfers add up to what the log paid to addresses that are not skipped. |
| `Pipeline.BlockAndTx` | client/client.go:438-456 | A height is fetched if and only if the limiter lets the request pass, the node answers with a block, and either that has no transactions or every needed page loads and every transaction converts; it then gives that block and all its transactions. Otherwise it fails, with the error of the block request or of the first failing page or conversion, whatever the cache has seen before. |
| `Pipeline.FinishedRequestSentTheChain` | client/client.go:140-194 | End to end: an uncancelled request that has finished has sent, for each height of its range in order, the chain's block and then its transactions one by one, converted and in their order, numbered by their places 0, 1, 2, ..., and one END and nothing else, if and only if its range does not start at height 0. |
| `Pipeline.NewestBlockFirst` | api/block.go:31-66 | A finished request whose range starts at height 0 has sent the newest block, of height at least 1, and its transactions first, and then the chain from height 1 on. |
| `Pipeline.ForwardedErrorIsTheFailure` | client/client.go:463-469 | A forwarded Error is what fetching the first height that cannot be fetched gives, and comes after everything below that height. |
| `Pipeline.FinishedPollSentTheWindow` | client/client.go:360-436 | For every max and every known height that is not ahead of the chain, a finished poll has sent, in order and numbered, the chain from the known height, or the newest max + 1 blocks if that is less, up to the newest block, if and only if a height was known or the chain is longer than max. |
| `Pipeline.FirstPollOfAllFails` | client/client.go:413-436 | The failing poll: on a chain of exactly max blocks a first poll gets the range from 0, has a schedule in which it finishes, and has then sent the newest block first. |

## Left out

- Cleanup of `getRange` after an Error (client/client.go:545-565) as steps of the failed request itself, with its last steps in `GetTransactions` (the final error response, closing `out`, cancelling the context): only its effect on the pools is an event.
- Failed requests that return while their producer is still at work, which takes at least as many failing heights as workers: the ordering channel then goes back to the pool with a producer still sending to it, and no ownership of channels holds any more.
- `Executions.OccursInv`: does not cover systems in which a failed request has returned while its producer was still at work.
- `Executions.EveryRequestIsSequential`: does not cover systems in which a failed request has returned while its producer was still at work.
- `Executions.OneHolderPerChannel`: does not cover systems in which a failed request has returned while its producer was still at work.
- `Executions.OneRequestPerQueue`: does not cover systems in which a failed request has returned while its producer was still at work.
- `Executions.EveryRequestCanMove`: does not cover systems in which a failed request has returned while its producer was still at work.
- `Executions.ExecutionsAreBounded`: takes a failed request up to `wg.Wait`; the steps it makes after that are not counted.
- `Executions.MaximalExecutionsFinish`: takes a failed request up to `wg.Wait`; the steps it makes after that are not counted.
- `Executions.StuckIsConcluded`: takes a failed request up to `wg.Wait`; the steps it makes after that are not counted.
- `CleanUp.NilExactlyWhen`: says what the ordering channel holds when the clean-up starts; with a producer still at work (at least as many failing heights as workers) more may come while it runs.
- `CleanUp.NilIsPut`: counts the pool for a clean-up that has the pool to itself; others may take from it or fill it meanwhile.
- `Transactions.SearchTx`: covers pagers with a fixed list that honour offset and limit; a total that changes between pages is not modelled, nor are rate limiter errors apart from a failing request.
- `Transactions.EventsAreAligned`: takes the sub-event dispatchers as a parameter: any function from a routed message with its log to a sub-event and an optional error.
- `GetTransactions` with an end height of zero (client/client.go:156-163): it dereferences a nil error.
- JSON encoding of payloads and the errors of `Send`: a Send call carries the response itself.
- gRPC, rate limiting, timeouts, metrics and logging: outcomes, pagers and limiter errors are parameters.
- Fees, gas, raw bytes and raw logs of a transaction (api/transaction.go:90-106, api/transaction.go:152-160): field copying.
- The per-message mappers other than transfers: protobuf decoding and field copying.
- Stream registration, dispatch by request type and the single-answer handlers of the client: plumbing over transport types.
- `GetBlocksMeta` and `GetBlockAsync`: side helpers outside the worker's request path.
- Rewards, delegations, balances, legacy formats, configuration and process setup.
- Lock acquisition: pool and cache operations are atomic, as their mutexes make them.
