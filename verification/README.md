# Verified model of the low-latency trading system

This project models, in Dafny, the logic of a market-data and market-making system for the
National Stock Exchange of India, and proves properties of it over all inputs and all runs.
`dafny verify dfyconfig.toml` checks the whole project.

Each object the system updates in place is a class whose methods, with the system's own loops
and arrays, are proved equal to a function on values (`ensures Abs() == Spec(old(Abs()), ...)`).
The properties of whole runs are then proved of those functions, as lemmas over arbitrary
sequences of events. Concurrency is a step relation in which either thread may move next.

- **Order book** (`OrderTable`, `PriceLevels`, `OrderBook`; runs in `BookRuns`, `BookAggregates`,
  `BookAgreement`, `AddAgreement`, `EventAgreement`, `AgreementRuns`, `OrderHistory`, `BookAddOnly`,
  `BookLimits`).
  A linear-probing hash table with backward-shift deletion, two sorted level arrays of at most 256
  entries, and the gap / stale / reseed machine. The table refines a finite map for any hash
  function; the levels equal seed plus tracked orders; the contents equal a replay of the window
  between the last Snap Quote and the first gap after it; each order is what its own events make
  of it, and each answer follows from the events before.
- **Market-data path** (`RingBuffer`, `Wire`, `WireLayout`, `FeedHandler`, `FeedRuns`, `FeedOrder`,
  `FeedCounters`, `EmissionOrder`, `Gateway`).
  The single-producer single-consumer ring as interleaved atomic steps, where each side may see the
  other's index late; the binary encoder, parser and capture reader; dual-source deduplication;
  and the path from packets to the book thread end to end.
- **Trading state machines** (`QuotingMath`, `QuoteLean`, `MarketMaking`, `MakerRuns`, `MakerQuotes`,
  `RiskManager`, `RiskRuns`, `RiskGate`, `OrderManager`, `OrderLives`, `Session`). Which way and how
  far the quotes lean, what each book update sends, the quote protocol over runs, the risk gate with
  its token bucket, conditions and history, and the life of each client order.
- **Platform adapter** (`Connect`, `IrageStrategy`, `IrageRuns`, `IragePrices`, `IrageGates`). The
  per-slot order state machine of the platform and the strategy that runs against it: what it
  sends, when, and at which price.
- **Fill simulator** (`FillSimulator`). Queue-aware fills and their closed form.

`Types`, `Arithmetic` and `Sequences` hold shared definitions and facts about division and slices.

## Findings

Some promises fail on some inputs. The model keeps the code as it is and proves exactly when the
promise holds.

- Erasing from a full order table never returns; it returns exactly when a slot is free
  (`OrderTable.EraseReturnsIff`; a run that gets there is `BookLimits.FullTableCancelHangs`). The
  book's entry point therefore requires that the event does not erase from a full table, and
  `OrderBook.HangsIff` shows that this leaves out no event that returns. The run theorems describe
  the effect of each event where its call returns.
- Levels and orders can come to disagree through a repeated order number, an eviction by an add or
  by a modify, and a negative quantity on which the clamp at zero fires. None of these is decisive
  by itself: a repeated number that pushes out its own old level keeps agreement, and so does a
  trade whose second leg empties the level on which the first met the clamp. The exact condition
  per event, and the theorem over runs, are `EventAgreement.HandleAgreesIff` and
  `AgreementRuns.LevelsAgreeIff`; a Snap Quote mends what went before it
  (`AgreementRuns.LevelsAgreeSinceSeedIff`). Concrete runs are in `BookLimits`.
- The feed handler computes the end of a packet and the next expected number modulo 2^64 and reads
  0 as "unset". Number 2^64 - 1 is dropped as a duplicate or makes a stream start afresh. The exact
  conditions are `FeedRuns.EmitsRunningMaximaIff`, `FeedOrder.TakenIncreasesIff` and, for what is
  emitted, `EmissionOrder.EmittedIncreasesIff`.
- The inventory skew narrows a 64-bit quotient to 32 bits. It is monotone exactly while the
  quotient fits (`QuotingMath.InventorySkewMonotoneIff`) and odd exactly while the narrowed
  quotient is not -2^31 (`QuotingMath.InventorySkewIsOdd`).
- The platform strategy narrows its desired prices to 32 bits. For an uncrossed touch on the grid a
  quote is legal exactly when it is snapped or narrowing moves it by a whole number of ticks
  (`IragePrices.WantedIsLegalIff`).
- The two sides can cross for two reasons: rounding a negative low price limit up by truncating
  division overshoots by a tick (`QuotingMath.SnapUpIsLeastIff`, `QuotingMath.NeverCrossesIff` for the
  snap alone), and narrowing can pull the ask below the bid (`IragePrices.NarrowingCrosses`). The
  exact condition for both together, for any touch, is `IragePrices.SidesUncrossedIff`; quotes that
  fit in 32 bits cross only through the overshoot (`IragePrices.WantedIsLegal`), and an ask that
  wraps is sent below its bid (`IragePrices.WrappedAskIsSent`).
- A late partial fill takes a released order out of its terminal state; `OrderManager.LateReports`
  says exactly when it is out of it. The table invariant is therefore about occupied slots.

Where the code and its comments differ, the model follows the code: the book's comment asks for a
power-of-two order capacity (src/order_book/order_book.hpp:41-42) and the constructor rounds any
capacity up; the quoting comments speak of one tick "inside" the touch
(src/strategy/quoting_math.hpp:47-49, src/strategy/market_making.hpp:4) and the code bids one tick
below the best bid and offers one tick above the best ask, which is called outside the touch here;
the gateway calls the count it returns "pushed"
(src/gateway/market_data_gateway.hpp:98-107) although refused events are in it too.

## Model

| member | source | states |
|---|---|---|
| OrderTable.AbsentBeyondFreeSlot | src/order_book/order_book.hpp:161-174 | a probe that meets a free slot without meeting the key proves the key is nowhere in the table, so lookups may stop there |
| OrderTable.FullIffAtCapacity | src/order_book/order_book.hpp:176-193 | the occupied slots are exactly the tracked keys in number: the table is full if and only if it holds as many keys as slots |
| OrderTable.InsertAtFreeSlot | src/order_book/order_book.hpp:176-193 | writing a new key into the first free slot of its probe gives a table of the enlarged map, every record still reachable from its home slot |
| OrderTable.OverwriteInPlace | src/order_book/order_book.hpp:185-189 | overwriting the record of a key where it stands gives a table of the updated map |
| OrderTable.StartShifting | src/order_book/order_book.hpp:195-211 | vacating the slot of a key leaves a table of the other keys with one hole, the shape the shifting loop keeps |
| OrderTable.ShiftMoves | src/order_book/order_book.hpp:212-230 | a turn that moves a record back into the hole keeps every other record reachable and present |
| OrderTable.ShiftSkips | src/order_book/order_book.hpp:212-230 | a turn that leaves a record in place is right: no probe for it crosses the hole |
| OrderTable.StopShifting | src/order_book/order_book.hpp:212-231 | once the walk meets a free slot, freeing the hole gives a well-formed table of exactly the remaining keys |
| OrderTable.ShiftTurn | src/order_book/order_book.hpp:212-230 | every turn keeps the invariant and comes strictly closer, on the circle, to any free slot |
| OrderTable.ShiftStopsIffNotFull | src/order_book/order_book.hpp:212-230 | the circular loop stops after some number of turns if and only if some slot is free |
| OrderTable.EraseReturnsIff | src/order_book/order_book.hpp:195-231 | erasing a tracked order returns exactly when fewer keys than slots are held; on a full table it never returns |
| OrderTable.EraseHangsIff | src/order_book/order_book.hpp:195-231 | in a table of m, the erase of k runs into a loop that never stops exactly when k is tracked and every slot is taken |
| OrderTable.TableExists | src/order_book/order_book.hpp:176-193 | any orders that fit in the slots have a well-formed table, whatever the hash |
| OrderTable.OrderTable.constructor | src/order_book/order_book.hpp:43-52 | a new table stands for the empty map |
| OrderTable.OrderTable.FindOrder | src/order_book/order_book.hpp:161-174 | for any hash function: finds a slot exactly when the key is tracked, and that slot holds its record |
| OrderTable.OrderTable.InsertOrder | src/order_book/order_book.hpp:176-193 | refines map update; refuses exactly when the key is new and the table is full, and then changes nothing |
| OrderTable.OrderTable.Overwrite | src/order_book/order_book.hpp:365-388 | writing the found record in place is a map update |
| OrderTable.OrderTable.EraseOrder | src/order_book/order_book.hpp:195-231 | refines map removal: exactly the one key goes, whatever was shifted; the loop terminates |
| OrderTable.OrderTable.Clear | src/order_book/order_book.hpp:122-129 | the table stands for the empty map afterwards |
| PriceLevels.RankIs | src/order_book/order_book.hpp:265-281 | the insertion point is determined by the levels: the only place that keeps better prices before it and no better price after |
| PriceLevels.HasPriceAtRank | src/order_book/order_book.hpp:237-263 | in a sorted side a price is present if and only if it stands at its insertion point |
| PriceLevels.AddQtySorted | src/order_book/order_book.hpp:283-313 | adding, with or without eviction, keeps the side strictly sorted and within 256 levels |
| PriceLevels.RemoveQtySorted | src/order_book/order_book.hpp:315-330 | removing keeps the side strictly sorted and never lengthens it |
| PriceLevels.BookSide.constructor | src/order_book/order_book.hpp:43-52 | a new side has no level |
| PriceLevels.BookSide.FindLevel | src/order_book/order_book.hpp:237-263 | the binary search returns the index of the price, or the count exactly when no level has it |
| PriceLevels.BookSide.InsertionPoint | src/order_book/order_book.hpp:265-281 | the binary search returns the number of levels that rank before the price |
| PriceLevels.BookSide.InsertAt | src/order_book/order_book.hpp:299-311 | the shifting loop is an insertion into the sequence that drops what stood last |
| PriceLevels.BookSide.RemoveAt | src/order_book/order_book.hpp:324-329 | the shifting loop deletes one position of the sequence |
| PriceLevels.BookSide.OpenLevel | src/order_book/order_book.hpp:294-312 | a new level is inserted, in place of the worst on a full side, or not taken when worse than 256 levels |
| PriceLevels.BookSide.AddQtyToLevel | src/order_book/order_book.hpp:283-313 | the array ends as the add specified on sequences: joined, opened, evicting the worst, or dropped when worse than 256 levels |
| PriceLevels.BookSide.RemoveQtyFromLevel | src/order_book/order_book.hpp:315-330 | the array ends as the removal specified on sequences; a level goes when its last order goes |
| PriceLevels.BookSide.Reset | src/order_book/order_book.hpp:334-347 | the side holds nothing or the one seeded level |
| OrderBook.FibonacciHash | src/order_book/order_book.hpp:154-159 | the masked 64-bit product is a slot of the table |
| OrderBook.RoundUpPow2 | src/order_book/order_book.hpp:140-146 | the loop yields the least power of two that is not below the request |
| OrderBook.HandleHangsIff | src/order_book/order_book.hpp:390-435 | whatever tables stand for the orders, the stated hang condition of a handled event holds exactly when one of its erase loops never stops |
| OrderBook.HangsIff | src/order_book/order_book.hpp:60-90 | at any valid book the precondition of ApplyEvent excludes exactly the events that run into an erase loop that never stops, on the book's own table or on one that stands for the orders after the first leg |
| OrderBook.OrderBook.constructor | src/order_book/order_book.hpp:43-52 | a new book is empty, current and expects no number; the capacity is a power of two at least as asked |
| OrderBook.OrderBook.AddQtyTo | src/order_book/order_book.hpp:283-313 | adds on the chosen side only; orders and the other side are untouched |
| OrderBook.OrderBook.RemoveQtyFrom | src/order_book/order_book.hpp:315-330 | removes on the chosen side only; orders and the other side are untouched |
| OrderBook.OrderBook.HandleAdd | src/order_book/order_book.hpp:349-363 | state and answer of an add, with the tick violation and full-table refusals |
| OrderBook.OrderBook.HandleModify | src/order_book/order_book.hpp:365-388 | a modify takes the old quantity out of the old price and requeues the order at the new one, side kept |
| OrderBook.OrderBook.HandleCancel | src/order_book/order_book.hpp:390-402 | a cancel takes the tracked quantity out and forgets the order |
| OrderBook.OrderBook.ReduceFully | src/order_book/order_book.hpp:424-431 | a trade that consumes the order takes its whole quantity out and forgets it |
| OrderBook.OrderBook.ReducePartly | src/order_book/order_book.hpp:424-434 | a smaller trade takes its quantity out of the level and of the record |
| OrderBook.OrderBook.ReduceResting | src/order_book/order_book.hpp:414-435 | a trade shrinks the resting order, or removes it when fully consumed; number 0 and unknown numbers do nothing |
| OrderBook.OrderBook.HandleTrade | src/order_book/order_book.hpp:404-410 | both legs are reduced, and the answer is unknown-order only if neither was tracked |
| OrderBook.OrderBook.Seed | src/order_book/order_book.hpp:334-347 | a Snap Quote forgets every order, ends staleness, and leaves on the bids one level of its bid price and quantity where that is positive and on the grid, on the asks likewise its ask fields |
| OrderBook.OrderBook.ApplyEvent | src/order_book/order_book.hpp:60-90 | the whole object, table and arrays and gap machine, refines one step of the book on values |
| OrderBook.OrderBook.Best | src/order_book/order_book.hpp:93-98 | the first level of the side, or nothing when the side is empty |
| BookRuns.LevelsStayOrdered | src/order_book/order_book.hpp:237-330 | in every run the bids strictly descend and the asks strictly ascend in price, with at most 256 levels |
| BookRuns.RejectedEventsChangeNothing | src/order_book/order_book.hpp:60-90 | an event answered gap, stale, tick violation, unknown order or full leaves the contents unchanged |
| BookRuns.ExpectedFollowsNumbers | src/order_book/order_book.hpp:62-74 | after any run the expected number is one past the last number carried by any event |
| BookRuns.StepDropsOrHandles | src/order_book/order_book.hpp:60-90 | an event other than a Snap Quote is dropped exactly when the book is stale or the event opens a gap; the book is then stale |
| BookRuns.ContentsAreReplayUpToGap | src/order_book/order_book.hpp:60-90 | after any run the contents equal replaying, with no sequence check, only the events from the last Snap Quote up to the first gap after it; stale exactly when there is such a gap |
| BookRuns.WindowExists | src/order_book/order_book.hpp:60-90 | such a window exists for every run, so the replay theorem covers all runs |
| BookRuns.GapCounterCounts | src/order_book/order_book.hpp:62-66 | the gap counter is the number of gaps in the run |
| OrderHistory.SnapQuoteSetsTheBook | src/order_book/order_book.hpp:334-347 | after any run that ends with a Snap Quote no order is tracked, the bids are the one level of its bid price and quantity, with count 1, where the quantity is positive and the price on the tick grid, and nothing otherwise; the asks likewise from its ask fields |
| OrderHistory.LegEffect | src/order_book/order_book.hpp:414-435 | one leg of a trade takes its quantity from the order it names, removes it when nothing would be left, and touches no other order |
| OrderHistory.TradeEffect | src/order_book/order_book.hpp:404-410 | a trade takes its quantity from an order once for each leg that names it, and the order goes exactly when one of these legs is at least what was left |
| OrderHistory.OrderFollowsItsEvents | src/order_book/order_book.hpp:349-435 | in every run an order is tracked exactly when its own events leave it resting; its price is the last one it was given, its side that of its last accepted add, and its quantity the last one it was given less all that has traded on it since |
| OrderHistory.AnswersIff | src/order_book/order_book.hpp:60-90 | the answer to any event after any run: Gap, stale, tick violation, full, unknown order and seeded, each if and only if its condition on the numbers and kinds of the run, the grid and the orders held |
| BookAggregates.AddAt | src/order_book/order_book.hpp:283-313 | with room on the side, an add changes the level of its own price only |
| BookAggregates.RemoveAt | src/order_book/order_book.hpp:315-330 | a removal changes the level of its own price only, closing it when its last order goes |
| BookAggregates.EvictAt | src/order_book/order_book.hpp:294-305 | opening a level on a full side puts it in place of the worst and changes no other price |
| BookAgreement.UntrackAgreesIff | src/order_book/order_book.hpp:390-402 | forgetting an order keeps every level equal to seed plus tracked orders exactly when its level holds its quantity |
| BookAgreement.ShrinkAgreesIff | src/order_book/order_book.hpp:414-435 | a partial trade keeps that agreement exactly when the level holds the traded quantity |
| BookAgreement.ReduceAgreesIff | src/order_book/order_book.hpp:414-435 | one leg of a trade keeps agreement exactly when the level of its order holds what it takes |
| AddAgreement.TrackAgreesIff | src/order_book/order_book.hpp:349-363 | an add of a fresh number keeps agreement exactly when it opens no level on a full side |
| AddAgreement.OverwriteAgreesIff | src/order_book/order_book.hpp:185-189 | an add of a tracked number keeps agreement exactly when it pushes out the level on which that number rests alone |
| AddAgreement.AddAgreesIff | src/order_book/order_book.hpp:349-363 | both cases in one condition, for every accepted add |
| AddAgreement.LostHasNoLevel | src/order_book/order_book.hpp:294-305 | opening a level on a full side loses the worst level, or the new one itself |
| EventAgreement.ModifyIsUntrackThenTrack | src/order_book/order_book.hpp:365-388 | a modify is the removal of the order followed by its add at the new price |
| EventAgreement.ModifyAgreesIff | src/order_book/order_book.hpp:365-388 | an accepted modify keeps agreement exactly when the old level holds the old quantity and the new price then pushes no level out |
| EventAgreement.SecondLegRepairsIff | src/order_book/order_book.hpp:404-410 | once the clamp has fired on a level, a further leg restores agreement exactly when it takes the last order out of that level |
| EventAgreement.TradeAgreesIff | src/order_book/order_book.hpp:404-410 | a trade keeps agreement exactly when both legs find what they take, or the second empties the level on which the first met the clamp |
| EventAgreement.HandleAgreesIff | src/order_book/order_book.hpp:349-435 | for every kind of event, agreement is kept exactly when the condition of its kind holds |
| AgreementRuns.LevelsAgreeIff | src/order_book/order_book.hpp:237-435 | for every run: after each event a side holds exactly the prices with a seed or a tracked order, with seed plus the sum of tracked quantities and the matching counts, if and only if every handled event met its condition |
| AgreementRuns.ClampNeverFires | src/order_book/price_level.hpp:24-32 | with quantities that are not negative a tracked order is fully inside its level, so removing it never reaches the clamp at zero |
| AgreementRuns.LevelsAgreeSinceSeedIff | src/order_book/order_book.hpp:237-435 | the same from the last Snap Quote on, whatever happened before it |
| AgreementRuns.LevelsAgreeWithOrders | src/order_book/order_book.hpp:237-435 | a feed with fresh numbers, quantities that are not negative and room for its levels keeps agreement throughout |
| AgreementRuns.ExpectedFromLastSeed | src/order_book/order_book.hpp:334-347 | what agreement expects at a price, in the terms of the run: the quantity and count that the last Snap Quote put there from its bid or ask fields, plus the tracked orders there |
| BookAgreement.BestIsTrueExtreme | src/order_book/order_book.hpp:93-98 | under agreement the best bid is the highest and the best ask the lowest price with something resting, with the true quantity, and a side is empty exactly when nothing rests on it |
| BookLimits.DuplicateAddBreaksAgreement | src/order_book/order_book.hpp:349-363 | a concrete run of two adds with one number after which levels and orders disagree |
| BookLimits.EvictionBreaksAgreement | src/order_book/order_book.hpp:294-305 | a concrete run of 257 adds at distinct prices after which a tracked order has no level |
| BookLimits.SwapKeepsAgreement | src/order_book/order_book.hpp:294-305 | a concrete run in which a repeated number and an eviction cancel out |
| BookLimits.ModifyBreaksAgreement | src/order_book/order_book.hpp:365-388 | a concrete run in which a modify pushes out a level that still has its order |
| BookLimits.NegativeQuantityBreaksAgreement | src/order_book/price_level.hpp:24-32 | a concrete run with a negative quantity in which the clamp fires |
| BookLimits.FullTableCancelHangs | src/order_book/order_book.hpp:390-402 | a concrete run after which the cancel of the only order does not return |
| BookAddOnly.AddKeeps | src/order_book/order_book.hpp:283-313 | one accepted add keeps: every kept level complete, and every missing price worse than 256 kept ones |
| BookAddOnly.EvictedIsWorst | src/order_book/order_book.hpp:294-305 | what an eviction loses ranks after everything that stays |
| BookAddOnly.KeptIffTop | src/order_book/order_book.hpp:283-313 | a price is kept if and only if fewer than 256 accepted prices rank before it |
| BookAddOnly.AddOnlyRunKeepsTheBest | src/order_book/order_book.hpp:283-313 | after every add-only run a side holds exactly the best min(256, distinct) accepted prices, each with its complete quantity and count |
| RingBuffer.CellOfWrapped | src/common/ring_buffer.hpp:34-55 | masking a wrapped 64-bit index selects the same cell as masking the true count |
| RingBuffer.WrappedDifference | src/common/ring_buffer.hpp:34-61 | the 64-bit difference of wrapped indices is the true difference while that is below 2^64 |
| RingBuffer.DistinctCells | src/common/ring_buffer.hpp:34-55 | positions less than a capacity apart use different cells |
| RingBuffer.WriteCellKeepsInv | src/common/ring_buffer.hpp:41 | writing the cell at the tail overwrites no queued element |
| RingBuffer.StoreTailKeepsInv | src/common/ring_buffer.hpp:42 | publishing the tail makes exactly the written value visible |
| RingBuffer.ProducerStepKeepsInv | src/common/ring_buffer.hpp:34-44 | every atomic step of push keeps the invariant of the shared state |
| RingBuffer.ConsumerStepKeepsInv | src/common/ring_buffer.hpp:47-55 | every atomic step of pop keeps the invariant of the shared state |
| RingBuffer.RunKeepsInv | src/common/ring_buffer.hpp:34-55 | the invariant holds in every reachable state of every interleaving, also past index wraparound |
| RingBuffer.EveryInterleavingIsSafe | src/common/ring_buffer.hpp:34-55 | what was popped is a prefix of what was pushed, at most a capacity is queued, and the cell being written is never the cell being read |
| RingBuffer.RefusedIffFullOrEmpty | src/common/ring_buffer.hpp:38-51 | with a current view of the other index, push refuses exactly when full and pop exactly when empty |
| RingBuffer.SizeIsBounded | src/common/ring_buffer.hpp:58-61 | size called by the producer lies between true occupancy and capacity, called by the consumer between zero and true occupancy |
| RingBuffer.OutcomesAccountForPushes | src/common/ring_buffer.hpp:34-44 | the published values are the accepted pushes in order, and every finished push is published or refused |
| Wire.LeRoundTrip | src/feed_handler/mtbt_parser.hpp:24-32 | little-endian bytes of a value that fits load back to it |
| Wire.LeValueBound | src/feed_handler/mtbt_parser.hpp:24-32 | a load of w bytes is below 256^w |
| Wire.LoadLe | src/feed_handler/mtbt_parser.hpp:24-32 | the accumulating loop computes the little-endian value |
| Wire.PutLe | src/sim/mtbt_generator.hpp:202-208 | the loop appends the low bytes, two's complement for negative values |
| Wire.SignedRoundTrip | src/feed_handler/mtbt_parser.hpp:35-46 | a signed value in range survives encoding and signed loading, negative ones included |
| Wire.DecodeHeader | src/feed_handler/mtbt_parser.hpp:76-85 | header fields lie in the ranges of their widths |
| Wire.ParseMessage | src/feed_handler/mtbt_parser.hpp:112-190 | accepts exactly where a complete message of a known type starts, and consumes that message within the buffer; every field by its offset is WireLayout.ParsesByOffsets |
| Wire.MessagesAreAPrefix | src/feed_handler/mtbt_parser.hpp:195-223 | the accepted messages stand back to back in the buffer, and the loop stops early only where no message starts |
| Wire.MessagesAreLongest | src/feed_handler/mtbt_parser.hpp:195-223 | any list of well-formed messages standing there, within the announced count, is a prefix of the accepted ones |
| Wire.EventsAreTheMessages | src/feed_handler/mtbt_parser.hpp:195-223 | the decoded events are those of that longest prefix, one by one, with consecutive numbers |
| Wire.ParseBatch | src/feed_handler/mtbt_parser.hpp:204-222 | on arbitrary bytes the loop never reads outside the buffer and emits the decoded prefix without heartbeats |
| Wire.MtbtParser.constructor | src/feed_handler/mtbt_parser.hpp:225-234 | a new parser has parsed nothing |
| Wire.MtbtParser.ParsePacket | src/feed_handler/mtbt_parser.hpp:195-223 | emissions and both counters for arbitrary bytes, short and truncated packets included |
| Wire.PutHeader | src/sim/mtbt_generator.hpp:69-73 | writes the header of a one-message packet |
| Wire.PutBody | src/sim/mtbt_generator.hpp:74-99 | writes the body of each encodable kind |
| Wire.EncodeCapture | src/sim/mtbt_generator.hpp:68-105 | appends one length-prefixed record, or nothing for a kind it does not encode |
| Wire.ReadRecord | src/sim/event_source.hpp:43-52 | reads one record or stops, at an empty, oversized or short one |
| Wire.ReadRecords | src/sim/event_source.hpp:43-52 | the loop collects the events of every record up to the first bad one |
| Wire.LoadEvents | src/sim/event_source.hpp:43-52 | the events of a capture are those of its well-formed leading records |
| Wire.DecodeSnapQuote | src/feed_handler/mtbt_parser.hpp:174-183 | an encoded Snap Quote body decodes to the event with non-wire fields reset |
| Wire.DecodeTrade | src/feed_handler/mtbt_parser.hpp:163-173 | an encoded Trade body decodes to the event with non-wire fields reset |
| Wire.DecodeAdd | src/feed_handler/mtbt_parser.hpp:140-148 | an encoded Add body decodes to the event with non-wire fields reset |
| Wire.DecodeCancel | src/feed_handler/mtbt_parser.hpp:157-162 | an encoded Cancel body decodes to the event with non-wire fields reset |
| Wire.PacketRoundTrip | src/sim/mtbt_generator.hpp:68-105 | a packet with one encoded event parses back to exactly that event |
| Wire.FramesReadBack | src/sim/event_source.hpp:43-52 | the reading loop recovers exactly the framed packets |
| Wire.CaptureRoundTrip | src/sim/mtbt_generator.hpp:68-105 | encoding any list of events and loading the bytes yields its Add, Cancel, Trade and Snap Quote events in order, non-wire fields reset, stream 0 as 1 |
| WireLayout.ParsesByOffsets | src/feed_handler/mtbt_parser.hpp:112-190 | any message of any kind, at any offset of any buffer, is read byte by byte from the offsets of the format, signed fields in two's complement, with the fields it does not carry zero and its size consumed |
| WireLayout.HeaderByOffsets | src/feed_handler/mtbt_parser.hpp:76-85 | the header is read byte by byte: stream at 0, number at 2, count at 10, timestamp at 11 |
| WireLayout.ModifyReadsBack | src/feed_handler/mtbt_parser.hpp:149-156 | the wire bytes of a Modify, which the encoder never writes, read back to its order number, quantity, token and price at any offset, negative ones included, with 25 bytes consumed |
| WireLayout.EncodedSideAndStream | src/sim/mtbt_generator.hpp:70-92 | on the wire a buy is 1 and a sell 2; a stream keeps its number except that 0 travels as 1 |
| WireLayout.CaptureIsRecordsAndRest | src/sim/event_source.hpp:43-52 | any bytes whatever are a run of good records and a rest that begins with none, by a length of zero, over a mebibyte or past the end, and the reading loop yields exactly the events of those records |
| FeedHandler.DeliverBatch | src/feed_handler/feed_handler.hpp:67-99 | the message loop folds the per-message rule over the parsed events and reports whether the packet was complete |
| FeedHandler.DeliverPacket | src/feed_handler/feed_handler.hpp:58-100 | the whole-packet shortcut and the loop on the statistics of one stream |
| FeedHandler.FeedHandler.constructor | src/feed_handler/feed_handler.hpp:41 | all streams start unset |
| FeedHandler.FeedHandler.OnPacket | src/feed_handler/feed_handler.hpp:46-101 | only the packet's own stream changes; emissions, statistics and the malformed counter for arbitrary bytes |
| FeedHandler.FeedHandler.ClearRetransmit | src/feed_handler/feed_handler.hpp:104-108 | clears one flag of one stream, ignores an unknown stream |
| FeedRuns.BytesGiveOkPackets | src/feed_handler/feed_handler.hpp:60-74 | every byte packet parses to messages of its stream numbered consecutively in 64 bits |
| FeedRuns.DeliverMatchesIff | src/feed_handler/feed_handler.hpp:60-99 | delivering a packet, with or without the whole-packet shortcut, keeps a stream equal to the running maxima of its arrivals exactly when its parsed numbers stop short of 2^64 - 1 and the shortcut, computed modulo 2^64, drops no new message |
| FeedRuns.EmitsRunningMaximaIff | src/feed_handler/feed_handler.hpp:58-100 | for arbitrary packets: after each of them a stream has emitted exactly the strict running maxima of its arrivals without heartbeats, expects the number after the largest and has recorded exactly the jumps, if and only if every packet fits in that sense |
| FeedRuns.EmitsRunningMaxima | src/feed_handler/feed_handler.hpp:58-100 | packets whose announced numbers stay below 2^64 always do |
| FeedRuns.LastNumberIsDropped | src/feed_handler/feed_handler.hpp:60-65 | concretely, number 2^64 - 1 alone in a packet is taken for a duplicate although it is the largest |
| FeedRuns.SpanIsAcceptedPlusGaps | src/feed_handler/feed_handler.hpp:80-98 | next number less first number is the accepted messages plus the total length of the gaps |
| FeedRuns.AcceptedOrMissing | src/feed_handler/feed_handler.hpp:80-98 | each number of the span is accepted or lies in a recorded gap, never both, so nothing inside a gap is emitted later |
| FeedRuns.DualSourceExactlyOnce | src/feed_handler/feed_handler.hpp:58-100 | two sources carrying the same contiguous messages, batched and interleaved in any way, give each message exactly once, in order, with no gap |
| FeedRuns.StreamsAreIndependent | src/feed_handler/feed_handler.hpp:58-100 | the emissions of a stream are those of its own packets, whatever arrives on others |
| Gateway.RunKeepsAccounted | src/gateway/market_data_gateway.hpp:98-107 | in every run the finished pushes, the one in flight and the pending events are together the emitted events in order, and the drop counter counts the refusals |
| FeedOrder.EmitsTaken | src/feed_handler/feed_handler.hpp:80-98 | what a stream emits is what it takes, heartbeats left out |
| FeedCounters.CountersAccount | src/feed_handler/feed_handler.hpp:60-99 | in every run each message a stream was offered was taken or counted as a duplicate, and emissions and opened packets are counted exactly |
| FeedOrder.NothingAfterLastIff | src/feed_handler/feed_handler.hpp:60-98 | a stream takes nothing after number 2^64 - 1 exactly when each of its packets, at its delivery, is empty or dropped as a whole, or finds an expected number and does not run past 2^64 - 1 |
| FeedOrder.TakenIncreasesIff | src/feed_handler/feed_handler.hpp:60-98 | for arbitrary packets the numbers that a stream takes strictly increase if and only if every packet is in order in that sense |
| FeedOrder.InRangeIsInOrder | src/feed_handler/feed_handler.hpp:60-98 | packets whose announced numbers stay below 2^64 always are |
| FeedOrder.EmittedIncreases | src/feed_handler/feed_handler.hpp:60-99 | if every packet is in order, heartbeats or not, the emitted numbers strictly increase on every stream |
| EmissionOrder.TakesSuffix | src/feed_handler/feed_handler.hpp:80-98 | of consecutive messages a stream takes all but those below the expected number, also across number 2^64 - 1 |
| EmissionOrder.EmitsNewMessages | src/feed_handler/feed_handler.hpp:60-98 | a packet emits exactly its messages from the expected number on, heartbeats left out, or nothing if it is dropped as a whole |
| EmissionOrder.StreamGoesUpIff | src/feed_handler/feed_handler.hpp:60-98 | for arbitrary packets, heartbeats included, the numbers that a stream emits strictly increase if and only if the new messages of each packet begin above the last number emitted and do not end below where they began |
| EmissionOrder.EmittedIncreasesIff | src/feed_handler/feed_handler.hpp:60-99 | all streams together: emitted numbers strictly increase per stream if and only if every packet goes up in that sense |
| EmissionOrder.NumbersRestart | src/feed_handler/feed_handler.hpp:86-92 | concretely, after number 2^64 - 1 a stream takes any number again |
| Gateway.EndToEnd | src/gateway/market_data_gateway.hpp:98-107 | for any packets and timing, the popped events are an in-order subsequence of the emitted ones, and emitted is popped plus queued plus dropped plus not yet pushed; if every packet goes up, popped numbers strictly increase per stream |
| Gateway.InRangeArrivesInOrder | src/gateway/market_data_gateway.hpp:98-107 | packets whose announced numbers stay below 2^64 reach the book thread with strictly increasing numbers per stream |
| QuotingMath.DesiredQuotes | src/strategy/quoting_math.hpp:56-67 | the width is the spread plus two ticks whatever the skews, and without skews the quotes stand one tick outside the touch; how they lean is QuoteLean |
| QuotingMath.SkewsAreBounded | src/strategy/quoting_math.hpp:18-46 | both skews stay within their limit for all inputs |
| QuotingMath.InventorySkewIsOdd | src/strategy/quoting_math.hpp:23-31 | the inventory skew is odd exactly when the quotient is not 2^31 modulo 2^32 |
| QuotingMath.SkewNotOddAtOverflow | src/strategy/quoting_math.hpp:23-31 | a concrete position whose long and short skews coincide because of the narrowing to 32 bits |
| QuotingMath.InventorySkewMonotoneIff | src/strategy/quoting_math.hpp:23-31 | over the positions within plus or minus p it is monotone exactly when p * max skew is below 2^31 * max position |
| QuotingMath.OverflowFlipsSkew | src/strategy/quoting_math.hpp:23-31 | the first position past that bound is skewed as if it were short |
| QuotingMath.FlowSkewOddAndMonotone | src/strategy/quoting_math.hpp:36-46 | the flow skew is odd, rises with the bid and falls with the ask quantity, for all non-negative quantities |
| QuotingMath.SnapBounds | irage/mystrat.cpp:195-208 | both roundings give grid points, the low one not below its limit |
| QuotingMath.SnapUpIsLeastIff | irage/mystrat.cpp:196-198 | rounding the low limit up gives the least grid point at or above it exactly when the limit is above minus one tick or just above a grid point |
| QuotingMath.SnapUpOvershoots | irage/mystrat.cpp:196-198 | otherwise it overshoots by exactly one tick |
| QuotingMath.SnapDownIsGreatest | irage/mystrat.cpp:202-204 | rounding the high limit down gives the greatest grid point at or below it |
| QuotingMath.SnappedInsideRange | irage/mystrat.cpp:189-208 | every side that stays quoted is on the grid and inside the price range |
| QuotingMath.NeverCrossesIff | irage/mystrat.cpp:189-208 | bid stays at or below ask for all quotes two ticks apart exactly when rounding the low limit up is exact |
| QuotingMath.DesiredOnGrid | src/strategy/quoting_math.hpp:56-67 | an on-grid touch gives on-grid quotes, at least two ticks apart when it is not crossed |
| QuotingMath.DesiredNearTouch | src/strategy/quoting_math.hpp:56-67 | a desired quote is within one tick and both skew limits of its side of the touch |
| QuoteLean.QuotesFallWithPositionIff | src/strategy/quoting_math.hpp:23-67 | a longer position never quotes higher on either side, over the positions within +-p, if and only if the quotient of p fits in 32 bits |
| QuoteLean.QuotesFollowPressure | src/strategy/quoting_math.hpp:36-67 | more quantity on the best bid never lowers the quotes, more on the best ask never raises them |
| QuoteLean.NeutralQuotes | src/strategy/quoting_math.hpp:56-67 | flat, with equal sizes, the quotes stand exactly one tick outside the touch |
| QuoteLean.LeansAgainstPosition | src/strategy/quoting_math.hpp:23-67 | with no pressure a position of some part of the maximum moves both quotes down by that part of the limit in whole ticks, rounded toward zero; at the maximum by exactly the limit, and a short position moves them up |
| QuoteLean.LeansWithPressure | src/strategy/quoting_math.hpp:36-67 | flat, an excess on the bid moves both quotes up by its part of the touch times the limit, in whole ticks rounded toward zero |
| QuoteLean.LeansAdd | src/strategy/quoting_math.hpp:56-67 | position and pressure together move the quotes by the sum of what each moves them alone |
| QuoteLean.LeansTheRightWay | src/strategy/quoting_math.hpp:56-67 | long with no heavier bid the quotes are not above neutral, short with no heavier ask not below |
| MarketMaking.MarketMaking.constructor | src/strategy/market_making.hpp:40-46 | no quote, no position, nothing pending, ids from 1 |
| MarketMaking.MarketMaking.DoCancelSide | src/strategy/market_making.hpp:225-240 | an active side is deactivated and its id queued for cancel; an inactive one is left alone |
| MarketMaking.MarketMaking.DoPlace | src/strategy/market_making.hpp:204-223 | a new order takes the next id and becomes the recorded quote, unless the buffer is full |
| MarketMaking.MarketMaking.DoQuoteOneSide | src/strategy/market_making.hpp:243-276 | keeps, cancels or replaces the side by price, age and permission |
| MarketMaking.MarketMaking.DoBookUpdate | src/strategy/market_making.hpp:55-117 | the whole callback: pre-close, hours, empty book, wide spread, band and position gates, then both sides; what it sends, told from the market, is MakerQuotes.UpdateSends |
| MarketMaking.MarketMaking.DoFill | src/strategy/market_making.hpp:119-131 | position and the completed side |
| MarketMaking.MarketMaking.DoCancel | src/strategy/market_making.hpp:133-146 | the scan deactivates the first token with a working quote of this id |
| MakerRuns.CancelSideKeepsMid | src/strategy/market_making.hpp:225-240 | in the middle of an update, a cancel keeps the ledger and uses one slot of the cancel buffer |
| MakerRuns.PlaceKeepsMid | src/strategy/market_making.hpp:204-223 | in the middle of an update, a placement keeps the ledger and fits the order buffer |
| MakerRuns.UpdateKeepsCore | src/strategy/market_making.hpp:55-117 | a whole book update keeps the ledger with at most two orders and two cancels |
| MakerRuns.FillDeactivates | src/strategy/market_making.hpp:119-131 | a completing fill with its order's token deactivates exactly the quote of that id |
| MakerRuns.CancelDeactivates | src/strategy/market_making.hpp:133-146 | a cancel report deactivates exactly the quote of that id, although the scan stops at the first |
| MakerRuns.StepKeepsSound | src/strategy/market_making.hpp:55-146 | every callback keeps the ledger sound |
| MakerRuns.RunIsSound | src/strategy/market_making.hpp:55-146 | the ledger is sound after every run of updates and genuine reports |
| MakerRuns.OneWorkingQuotePerSide | src/strategy/market_making.hpp:55-146 | in every such run ids strictly increase, the buffers never exceed two entries, and per token and side the open orders are exactly the recorded quote when active, none otherwise |
| MakerQuotes.BelowLimitIff | src/strategy/market_making.hpp:91-115 | the truncating lot division of the position gate as a plain bound in units |
| MakerQuotes.AllowedIff | src/strategy/market_making.hpp:108-116 | the gates of a side: position in whole lots below the limit and the price within the circuit percentage of the previous close |
| MakerQuotes.UpdateSends | src/strategy/market_making.hpp:55-117 | every book update from any state: a side emits exactly one order, at its target price with quote lots times the lot, if and only if trading is on, there is a touch, the spread is not too wide, the side is allowed and its working quote is not current; a working quote is cancelled if and only if the pre-close has come or it is not allowed or not current; ids run on, and other tokens and positions are untouched |
| MakerQuotes.EmittedOrdersAreJustified | src/strategy/market_making.hpp:55-117 | every emitted order is inside 9:15 to 15:25, the circuit and the position limit, has the configured size, stands one tick outside the touch when both skews are off, and a buy and a sell lie the spread and two ticks apart |
| MakerQuotes.EmittedOrdersLean | src/strategy/market_making.hpp:190-202 | long with no heavier bid an emitted order is at or below one tick outside the touch, short with no heavier ask at or above |
| MakerQuotes.EveryOrderIsJustified | src/strategy/market_making.hpp:55-117 | in every run every order was justified by the update that emitted it |
| MakerQuotes.PositionIsNetFilled | src/strategy/market_making.hpp:119-123 | in every run the position of a token is what was bought less what was sold |
| Session.SessionsByTheClock | src/common/time_utils.hpp:117-150 | the sessions by the clock: pre-open from 9:00 to 9:15, trading from 9:15 to 15:30, pre-close from 15:25 |
| Session.BandIsPercentage | src/strategy/market_making.hpp:177-189 | the circuit band holds exactly the prices within the percentage of the previous close |
| RiskManager.RiskManager.constructor | src/risk/risk_manager.hpp:46-58 | a full bucket, no position, no switch set |
| RiskManager.RiskManager.ConsumeRateToken | src/risk/risk_manager.hpp:198-217 | refills by elapsed time up to the cap, then takes one token if there is one |
| RiskManager.RiskManager.DoCheck | src/risk/risk_manager.hpp:71-121 | the answer and the state of the whole gate, checks in source order; an approved order has no switch against it, the right hour, size and circuit; all conditions exactly are RiskGate.ApprovedIff |
| RiskManager.RiskManager.IsPriceSane | src/risk/risk_manager.hpp:167-175 | an order is sane exactly when its price lies within the allowed percentage of the opposite touch, or there is none |
| RiskManager.RiskManager.IsPositionOk | src/risk/risk_manager.hpp:177-196 | passes exactly when the projected position stays below (max lots + 1) * lot either way and, in the cash market, the notional within its limit |
| RiskManager.RiskManager.DoFill | src/risk/risk_manager.hpp:125-134 | position, cash flow and the daily-loss switch |
| RiskManager.RiskManager.DoUpdateReference | src/risk/risk_manager.hpp:63-68 | the references of one token change, unknown tokens are ignored |
| RiskManager.RiskManager.SetKillSwitch | src/risk/risk_manager.hpp:137 | only the switch changes |
| RiskManager.PriceSaneIff | src/risk/risk_manager.hpp:167-175 | the scaled difference test is a band around the reference |
| RiskManager.LotsWithinLimitIff | src/risk/risk_manager.hpp:177-187 | the truncating lot test passes exactly for projected positions strictly within (max lots + 1) * lot either way |
| RiskManager.PositionOkIff | src/risk/risk_manager.hpp:177-196 | the two truncating divisions as plain bounds on position and notional |
| RiskRuns.ConsumeKeepsBudget | src/risk/risk_manager.hpp:198-217 | taking a token never lets a window hand out more than its opening balance and refill |
| RiskRuns.WindowApprovesAtMost | src/risk/risk_manager.hpp:71-121 | after any run, any window of w ns approves at most rate + rate * w / 10^9 orders |
| RiskRuns.SpacedOrdersAreNeverRateLimited | src/risk/risk_manager.hpp:198-217 | if otherwise-valid orders come at least 10^9 / rate ns apart, none is refused by the rate limiter |
| RiskRuns.OtherRefusalsAreFree | src/risk/risk_manager.hpp:71-121 | an order refused for another reason changes nothing, budget included |
| RiskRuns.LossKillIsPermanent | src/risk/risk_manager.hpp:71-77 | once the daily-loss switch is set, every later submission of every run is refused |
| RiskRuns.DeskStepKeepsBound | src/risk/risk_manager.hpp:71-134 | an approved order or a fill keeps position plus working buy and working sell less position within that limit |
| RiskRuns.PositionStaysWithinLimit | src/risk/risk_manager.hpp:71-134 | with one buy and one sell outstanding per token and no overfills, the position stays below (max lots + 1) * lot either way in every run |
| RiskGate.CheckableIff | src/risk/risk_manager.hpp:71-121 | the precondition of the gate leaves out exactly the orders that pass every check before the tables with a token outside them |
| RiskGate.ApprovedIff | src/risk/risk_manager.hpp:71-121 | an order is approved if and only if no switch is set, the hour is right, 0 < quantity <= maximum, a futures quantity is a multiple of the lot, the price is within the circuit and the sanity band, the projected position and notional are within their limits, and the refilled bucket holds a token; a refused order is told the first of these that fails, in the order of the source |
| RiskGate.MarkedIs | src/risk/risk_manager.hpp:219-226 | the profit marked at a fill's price, summed fill by fill, is the cash flow plus the net quantity at that price |
| RiskGate.FillKeepsHistory | src/risk/risk_manager.hpp:125-134 | a fill moves position, cash flow and marked profit as the sum over all fills says, and trips the loss switch exactly when that sum is beyond the limit |
| RiskGate.StateFollowsActs | src/risk/risk_manager.hpp:63-137 | after any run every position is bought less sold, every reference the last one given, the switch as last set, and the loss switch on if and only if some fill left a loss beyond the limit |
| RiskGate.ApprovedInRun | src/risk/risk_manager.hpp:71-121 | every order approved in any run met every condition, told from the acts of the run: last switch, losses seen, last opposite reference and net fills |
| OrderManager.OrderManager.constructor | src/order_manager/order_manager.hpp:44-46 | all slots free, whatever order data they hold, and ids from 1 |
| OrderManager.OrderManager.Find | src/order_manager/order_manager.hpp:140-143 | finds nothing but the id asked for and, in a consistent table, every live order |
| OrderManager.OrderManager.Release | src/order_manager/order_manager.hpp:157-164 | frees a slot once; a second release changes nothing |
| OrderManager.OrderManager.DoNewOrder | src/order_manager/order_manager.hpp:56-76 | takes the order unless its slot holds a live one; assigns a fresh id when none is given |
| OrderManager.OrderManager.DoAck | src/order_manager/order_manager.hpp:79-88 | moves a pending order to live |
| OrderManager.OrderManager.DoFill | src/order_manager/order_manager.hpp:91-104 | accumulates and completes |
| OrderManager.OrderManager.DoCancelAck | src/order_manager/order_manager.hpp:107-115 | cancels and releases |
| OrderManager.OrderManager.DoReject | src/order_manager/order_manager.hpp:118-127 | rejects and releases |
| OrderManager.StepKeepsConsistent | src/order_manager/order_manager.hpp:56-164 | every report, late or repeated, keeps the live count and the slot states consistent |
| OrderManager.RunIsConsistent | src/order_manager/order_manager.hpp:56-164 | the table is consistent after every run from any uninitialised contents |
| OrderManager.LiveOrdersAreIndexed | src/order_manager/order_manager.hpp:56-164 | in every run the live count is the number of occupied slots, no live order is terminal, each is found by its own id, no two share one, and a new order never overwrites a live one |
| OrderManager.LateReports | src/order_manager/order_manager.hpp:79-164 | from any released order, whatever reports follow until its slot is reused, it stays released, and is out of its terminal state exactly when the last report about it was a fill that neither completes it nor says so |
| OrderManager.EveryTerminalIsReleased | src/order_manager/order_manager.hpp:56-164 | in every run a slot in a terminal state is such a released order |
| OrderManager.LateFillReopens | src/order_manager/order_manager.hpp:91-104 | a concrete run in which a partial fill takes a cancelled order out of its terminal state |
| OrderLives.OrderFollowsReports | src/order_manager/order_manager.hpp:56-164 | whatever events follow, until its slot is reused an order shows exactly what the reports about it make of it: state, filled quantity, exchange number of its first acknowledgement in time, last reject code, and live or released |
| OrderLives.OwnIdsRunOn | src/order_manager/order_manager.hpp:56-62 | the manager's own ids run on without a break, one for each order that came without an id |
| OrderLives.ReportsAnswered | src/order_manager/order_manager.hpp:79-127 | a report is accepted exactly when the slot of its id still holds that id, an acknowledgement only for a pending order; a refused one changes nothing |
| FillSimulator.FillSimulator.constructor | src/sim/fill_simulator.hpp:29 | no quote on any token |
| FillSimulator.FillSimulator.RegisterOrder | src/sim/fill_simulator.hpp:34-41 | the quote of that token and side is replaced, others stay |
| FillSimulator.FillSimulator.MatchAgainst | src/sim/fill_simulator.hpp:80-108 | absorbs the queue first, then fills, then deactivates when nothing is left |
| FillSimulator.FillSimulator.ProcessEvent | src/sim/fill_simulator.hpp:45-66 | only trades at or through our price match, both sides with the whole trade |
| FillSimulator.AbsorbContinues | src/sim/fill_simulator.hpp:80-108 | absorbing more volume continues the closed form, so the split into trades does not matter |
| FillSimulator.StepEffect | src/sim/fill_simulator.hpp:34-66 | what one event does to one quote and how much it reports for it |
| FillSimulator.FilledInTotal | src/sim/fill_simulator.hpp:34-108 | after eligible volume T, a quote of n behind q has been filled min(n, max(0, T - q)) in total, however T was split and whatever else happened |
| FillSimulator.RegisteredQuoteFills | src/sim/fill_simulator.hpp:34-108 | the same from registration, with a negative queue taken as none |
| FillSimulator.VolumeIsConserved | src/sim/fill_simulator.hpp:80-108 | eligible volume is queue absorbed plus our fill, up to what was there; our fills start only when the queue is gone |
| FillSimulator.MatchReports | src/sim/fill_simulator.hpp:80-108 | one side of a trade reports at most once, with the id, token and price of our quote and what the trade leaves of it |
| FillSimulator.ReportsTellTheQuote | src/sim/fill_simulator.hpp:80-108 | in any undisturbed run the reports on a quote carry its id and price and count down what is left of it, and all reports are numbered and counted without a break |
| FillSimulator.RegisteredQuoteReports | src/sim/fill_simulator.hpp:34-108 | the same from registration on, in the terms of the order |
| Connect.PackedKeyInjective | irage/mock/ConnectHeader.h:309-311 | different slots never share a packed key |
| Connect.ConnectImpl.constructor | irage/mock/ConnectHeader.h:112-120 | no slot, nothing sent |
| Connect.ConnectImpl.SendOrder | irage/mock/ConnectHeader.h:173-225 | new, replace, cancel or refusal with its error code, per slot state |
| Connect.ConnectImpl.TestAckAll | irage/mock/ConnectHeader.h:130-139 | every request in flight is answered, others untouched |
| Connect.MessagesCycle | irage/mock/ConnectHeader.h:173-225 | in a history that follows the cycle, two successive messages of a slot have an acknowledgement between them unless the earlier is an immediate-or-cancel New, and the later is New exactly when the earlier is a Cancel or such a New |
| Connect.FirstMessageIsNew | irage/mock/ConnectHeader.h:173-225 | the first message of a slot is a New |
| IrageStrategy.HeadroomIsFourFifths | irage/mystrat.cpp:148-151 | a product within a tenth of four fifths of a 32-bit total, and not below them where they are an integer, as the rounded product with the double 0.8 is, cuts to four fifths rounded down |
| IrageStrategy.Strategy.constructor | irage/mystrat.cpp:28-65 | symbols as configured, with a tick or lot size that is not positive replaced by 1 |
| IrageStrategy.Strategy.DoCancelSide | irage/mystrat.cpp:109-122 | a zero quote is sent only if an order stands |
| IrageStrategy.Strategy.DoCancelAll | irage/mystrat.cpp:124-129 | the loop cancels both sides of every symbol |
| IrageStrategy.Strategy.DoWorkSide | irage/mystrat.cpp:231-249 | quote, cancel, or leave while the message budget is tight |
| IrageStrategy.Strategy.DoWorkSymbol | irage/mystrat.cpp:153-250 | one symbol: empty touch, wide spread, skew, narrowing, snap, gates, both sides |
| IrageStrategy.Strategy.DoOnMarketData | irage/mystrat.cpp:131-252 | the whole callback over all symbols, kill switch and pre-close sweep included |
| IrageRuns.SendKeepsSlot | irage/mock/ConnectHeader.h:173-225 | every sendOrder, immediate-or-cancel or not, keeps each slot's state equal to the phase of its message history, its quote equal to the last one sent, and every Replace a real move |
| IrageRuns.AckKeepsTracked | irage/mock/ConnectHeader.h:130-139 | so does a round of acknowledgements |
| IrageRuns.RunIsTracked | irage/mystrat.cpp:131-252 | in every run, slots match their histories and belong to configured symbols |
| IrageRuns.StandingIffHistory | irage/mock/ConnectHeader.h:235-244 | in every run getStandingOrder answers yes exactly when the message history leaves the slot an order, acknowledged or not |
| IrageRuns.RequestAnswered | irage/mock/ConnectHeader.h:173-225 | every request is answered from the history of its slot alone: taken, and sent as Cancel, Replace or New, while the slot is vacant or its order rests, unless there is nothing to cancel or too little changes; and the error code otherwise |
| IrageRuns.SlotsHoldLastQuotes | irage/mock/ConnectHeader.h:196-223 | in every run a standing slot holds the last quote sent for it, and every Replace changes price or quantity, and the price by at least the minimum asked for |
| IrageRuns.NothingImmediate | irage/mystrat.cpp:90-122 | in every run the strategy sends no immediate-or-cancel order |
| IrageRuns.EverySlotCycles | irage/mock/ConnectHeader.h:173-225 | in every run no slot's history breaks the protocol |
| IrageRuns.SlotMessagesCycle | irage/mock/ConnectHeader.h:173-225 | in every run a slot's first message is a New, two successive messages have an acknowledgement between them, and the later is a New exactly when the earlier is a Cancel |
| IrageRuns.CancelAllEffect | irage/mystrat.cpp:124-129 | a sweep tries a cancel on exactly the configured slots and logs only cancels |
| IrageRuns.SweepRoundEffect | irage/mystrat.cpp:131-144 | what one sweeping callback and acknowledgement do to each slot |
| IrageRuns.TwoSweepsLeaveNothing | irage/mystrat.cpp:131-144 | from any reachable state two sweeping callbacks, each fully acknowledged, leave no standing order |
| IrageRuns.KilledRunSendsNoQuotes | irage/mystrat.cpp:135-138 | while the kill switch stays set nothing but cancels is sent, whatever else happens |
| IrageGates.HeadroomIff | irage/mystrat.cpp:148-151 | the budget test says that one more message stays within four fifths |
| IrageGates.WantsIff | irage/mystrat.cpp:181-229 | which sides pass the gates and at which price: position, rejects, and the price range |
| IrageGates.SymbolOutcome | irage/mystrat.cpp:153-250 | one symbol in one callback: each side is quoted at its price and size, cancelled or left alone exactly as the inputs say, nothing else is touched, and the prices it remembers are those sent |
| IrageGates.MidRemembered | irage/mystrat.cpp:166-168 | the symbol remembers half the sum of a touch that has size on both sides, rounded toward zero |
| IrageGates.CallbackSendsOnlyWanted | irage/mystrat.cpp:131-252 | every message of a callback is a cancel or the quote one of its symbols asks for, sent while running, not killed, before the pre-close by Indian time, with headroom, on a side inside its position and reject limits |
| IrageGates.CallbackReachesEverySlot | irage/mystrat.cpp:131-252 | for symbols with different ids every slot is worked as its own symbol's inputs say, or swept |
| IrageGates.PlainPrices | irage/mystrat.cpp:181-208 | without skews a quote that fits and needs no snap stands one tick outside its side of the touch |
| IrageGates.EveryQuoteIsJustified | irage/mystrat.cpp:131-252 | in every run every New and Replace was justified by the callback that sent it |
| IragePrices.WantedIsLegalIff | irage/mystrat.cpp:181-229 | for an uncrossed on-grid touch, a side that passes the gates is on the grid and in range exactly when it is snapped or narrowing to 32 bits moves it by a whole number of ticks |
| IragePrices.SidesUncrossedIff | irage/mystrat.cpp:181-229 | for any touch and two sides that pass the gates, bid is at or below ask exactly when: with the ask snapped, the bid is snapped too or is not above the high limit rounded down; with the bid alone snapped, the low limit rounded up is not above the ask; with neither, narrowing pulls the ask down by no more than the width of the quotes |
| IragePrices.LegalSidesUncrossedIff | irage/mystrat.cpp:181-229 | for an on-grid touch with two legal sides, a snapped ask never meets the bid, and a lifted bid does exactly when the low limit does not round exactly and the ask is the one price passed by the overshoot |
| IragePrices.LiftedBidBelowIff | irage/mystrat.cpp:196-198 | a bid lifted to the low limit passes a legal ask exactly when the rounding is not exact and the ask stands one tick below the lifted bid |
| IragePrices.WantedIsLegal | irage/mystrat.cpp:181-229 | quotes of such a touch that fit in 32 bits are legal, and cross exactly in that one case of the overshoot |
| IragePrices.SmallQuotesFit | irage/mystrat.cpp:181-187 | the quotes fit if the touch leaves room for one tick and both skew limits |
| IragePrices.NegativeLimitCrosses | irage/mystrat.cpp:189-208 | a concrete uncrossed touch in a negative range whose snapped bid is above its ask |
| IragePrices.NarrowingLeavesGrid | irage/mystrat.cpp:186-187 | a concrete on-grid touch whose ask wraps to a price off the grid |
| IragePrices.NarrowingCrosses | irage/mystrat.cpp:186-187 | on the same touch the wrapped ask is below the bid |
| IragePrices.NarrowingCrossesOnGrid | irage/mystrat.cpp:186-187 | a concrete touch that passes the gates of a callback and whose ask wraps to a grid price below the bid |
| IragePrices.CallbackSendsCrossedQuotes | irage/mystrat.cpp:131-252 | a first callback that quotes both sides sends two new quotes, which cross exactly when the sides are not kept apart in that sense |
| IragePrices.WrappedAskIsSent | irage/mystrat.cpp:131-252 | without a price range, an ask at or past 2^31 whose bid fits in 32 bits and is less than 2^32 below it is sent, by a first callback, below that bid |
| IragePrices.CallbackSendsLegalPrices | irage/mystrat.cpp:131-252 | whatever the inputs, every message of a callback is a cancel or a quote of one of its symbols that, for an uncrossed on-grid touch, is legal exactly when its side is snapped or narrowing moves it by a whole number of ticks |

## Left out

- Sockets, threads, CPU pinning, the clock and cycle counters: the arrival order of packets, the interleaving of threads and the time are arbitrary parameters.
- Logger, metrics, dashboard, CSV loading, command-line tools, benchmarks, user-interface updates and latency percentiles: plumbing and formatting.
- NNF encoding and session, fee model, symbol-master loading, book routing and the memory pool: direct stores, table look-ups or easy arithmetic.
- The composed backtest loop and the random walks of the event generator.
- Profit and loss over several tokens; one fill's effect on cash flow and the loss switch is modelled as the code does it.
- Overflow of 32- and 64-bit prices, quantities, counters and client ids, which are mathematical integers here; wrap-around is modelled for ring indices, sequence numbers, quote ages, wire fields and the narrowing of skews and of the platform strategy's prices.
- Weak memory inside the ring's cells: each cell access is one atomic step, justified by the proof that the two sides never touch the same cell at once; late views of the other side's index are modelled.
- `displayed_qty_at`, `modify_order` and the read-only accessors of the book.
- The adapter's counters and execution callbacks, except that the reject counts may change arbitrarily between events, and its limit of 16 symbols.
- RiskManager.RiskManager.ConsumeRateToken: the bucket holds exact multiples of 10^-9 tokens instead of a double, so rounding of the refill is not modelled.
- RiskManager.RiskManager.DoCheck: requires that a token outside the tables is refused by one of the earlier checks; past those the code indexes the tables without a test.
- The gateway's batch of packets is modelled packet by packet and event by event.
- MakerRuns.OneWorkingQuotePerSide: assumes reports about orders that were emitted and fills that carry their order's token, as the gateway delivers them.
- OrderTable.OrderTable.EraseOrder: the first loop, which locates the key, is the probe of FindOrder and is modelled by calling it.
- Wire.MtbtParser.ParsePacket: emits a sequence instead of calling back for each event.
