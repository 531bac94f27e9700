# Verification of the market data hub

A Dafny model of one exchange and of the trader who listens to it, and proofs about both. An order is
followed from the command that enters it to the public book that is rebuilt from the feed: sequencing queue,
risk gate, matching engine, ledger, publisher, market-data queue, wire format, replay, snapshot.

    dafny verify dfyconfig.toml

## What is proved

* **Matching book.** `MatchingBook` (slab, intrusive chains, free list, handles) over `SideIndex` (three-level
  bitmap, ladder, overflow map) refines two price-time lists. Its invariant says that each slot is in exactly one
  chain or in the free list, that chains are acyclic with both links inverse, and that no empty level is indexed.
* **Matching engine.** `MatchingEngine` refines the function `EngineSpec.Process` over those lists. Every command
  keeps every book uncrossed; new orders, cancels and replaces have closed forms (what trades, at which price, and
  what the one book that changes becomes) and are refused exactly for the faults they have; fill-or-kill is all or
  nothing.
* **Risk gate and ledger.** In every state an admissible run reaches, holds and resting orders are in bijection,
  every reservation is the exact sum of its holds, and nobody is overspent, at each event and not only after each
  command. Admissible means that no replace that the gate lets through takes over a live id, and no (negative)
  deposit uncovers reserved cash; an action keeps the invariant if and only if it is admissible. Which commands the
  gate turns away is exact, and so is what every trade moves between accounts; cash and units are conserved, and the
  order-size limit bounds every quantity, in every run, admissible or not.
* **Feed mirror.** Folding the published feed into the trader's books gives no error and, for each exchange id,
  exactly the side, price and remaining quantity the exchange has, with the same totals at every level; its trades
  are the executed ones, and it does not depend on whose orders they are.
* **Queues.** Every interleaving of atomic steps of `MpscQueue` (any number of producers) and `SpscQueue`; drops
  of the market-data queue always show as gaps.
* **Trader side.** `OrderBook` refines a flat arrival list; the codec, the packet framing and the file reader are
  inverse both ways and put every field at its documented offset; snapshots round-trip; a replay of any stream stops
  exactly where it should, having applied exactly what came before; recovering from a gap gives the books of the run
  that lost nothing.
* **End to end.** For every run of deposits and commands through the risk gate, replaying the file of its feed, or
  recovering from a loss of part of it, ends with exactly the exchange's resting orders.
* **Generators.** Every feed the generator can write replays cleanly; `SplitMix64` is a full-period bijection and
  its bounded draw is exactly uniform and ends.

## Where the code does less than its documentation says

Each is kept as the code has it, with the exact condition, and a run that shows it where it takes one.

* A replace whose new client order id is another live id of the account is admitted, and overwrites that order's
  directory entry and hold (`include/exchange/risk/risk_gated_engine.hpp:43-52` promises a consistent ledger).
  `VenueCounterexample.TakeoverOverspends` is a run that ends overspent; `VenueLaws.CommandGood` is the condition.
* `MpscQueue::try_push` is documented to return false when the queue is full (`include/common/mpsc_queue.hpp:58-60`).
  A producer whose loaded head is behind the tail is refused although the queue may be empty:
  `MpscQueue.StaleHeadIsRefused`, and exactly when in `MpscQueue.RefusedExactly`.
* `SplitMix64::between` is documented as uniform in an inclusive range
  (`include/exchange/testing/matching_workload.hpp:83`). On the whole 64-bit range it returns the low end only:
  `SplitMix.BetweenIsUniform`.
* Queue capacities are documented to round up to a power of two (`include/common/spsc_queue.hpp:48-49`,
  `include/common/mpsc_queue.hpp:26`). For a capacity above 2^63 the doubling wraps to zero and does not end:
  `Arithmetic.DoublingReaches`.
* `unpack_frames` does not undo `pack_frames` for no event or for more than 65535, whose count is truncated:
  `Framing.PacketRoundTrip`.
* The repository's `README.md:875` says a replace always loses time priority. The code, and
  `include/exchange/matching/matching_engine.hpp:32-38`, keep it for the same price and no larger quantity
  (`src/exchange/matching/matching_engine.cpp:530`), and so does the model.

## Layout

| files | model |
|---|---|
| Domain, Exchange, PriceTime | vocabulary, commands and events, price-time lists |
| Words, TickLadder, MatchingBook | `SideIndex` and `MatchingBook` |
| Matching, EngineSpec, EngineLaws, EngineTheorems, Completeness | the engine as a function, and its laws |
| EngineLinks, MatchingEngine | the engine class and its refinement |
| LedgerSpec, Reservations, AccountLedger | the ledger as a function, its laws, and the class |
| Gated, VenueLaws, VenueRuns, Admission, VenueCounterexample, RiskGatedEngine, VenueFeed | engine, risk and ledger together |
| TraderSpec, TraderBook, BookManager, BookRegistry, BookEquivalence | the trader's books |
| Protocol, MarketData, FeedMirror | the feed and what it mirrors |
| Arithmetic, MpscQueue, SpscQueue, SequenceValidator, MarketDataRouter | queues and gaps |
| ByteIo, Codec, Framing, Snapshot, WireFormat, Replay, ReplayStops | bytes, frames, packets, files, snapshots, replay |
| EndToEnd | from commands to rebuilt books |
| FeedGenerator, SplitMix | the generators |

Events a method hands to a sink in the source are its result here; a `std::list` iterator is the order's id in
its level; clocks, random draws and file contents are parameters.

## Model

| member | source | states |
|---|---|---|
| `Words.Set` | src/exchange/matching/matching_book.cpp:69-74 | setting bit i of a 64-bit word makes exactly that bit true and leaves the other 63 |
| `Words.Clear` | src/exchange/matching/matching_book.cpp:76-89 | clearing bit i leaves exactly the other bits that were set |
| `Words.Below` | src/exchange/matching/matching_book.cpp:41-43 | masking keeps exactly the bits strictly below a position |
| `Words.Above` | src/exchange/matching/matching_book.cpp:44-46 | masking keeps exactly the bits strictly above a position |
| `Words.Highest` | src/exchange/matching/matching_book.cpp:33-35 | the index found in a non-zero word is a set bit, and no bit above it is set |
| `Words.Lowest` | src/exchange/matching/matching_book.cpp:36-38 | the index found in a non-zero word is a set bit, and no bit below it is set |
| `TickLadder.BandFor` | src/exchange/matching/matching_book.cpp:225-237 | the largest allowed width such that two ladders of it for every instrument fit the byte budget, and the widest of all for no instruments |
| `TickLadder.SideIndex.constructor` | src/exchange/matching/matching_book.cpp:52-53 | a new index has no occupied price |
| `TickLadder.SideIndex.Empty` | include/exchange/matching/matching_book.hpp:210 | an empty summary and an empty overflow map mean exactly that no price is occupied |
| `TickLadder.SideIndex.Anchor` | src/exchange/matching/matching_book.cpp:55-67 | moving the band of an empty side puts the price inside it and occupies nothing |
| `TickLadder.SideIndex.SetOccupied` | src/exchange/matching/matching_book.cpp:69-74 | the three bitmap levels again represent one set, which has gained exactly this tick |
| `TickLadder.SideIndex.ClearOccupied` | src/exchange/matching/matching_book.cpp:76-89 | the three bitmap levels again represent one set, which has lost exactly this tick |
| `TickLadder.SideIndex.IsOccupied` | src/exchange/matching/matching_book.cpp:91-93 | the bit answers membership in the represented set |
| `TickLadder.SideIndex.HighestOccupied` | src/exchange/matching/matching_book.cpp:95-102 | descending the bitmap finds the greatest occupied tick, or the band width when there is none |
| `TickLadder.SideIndex.LowestOccupied` | src/exchange/matching/matching_book.cpp:104-111 | descending the bitmap finds the least occupied tick, or the band width when there is none |
| `TickLadder.SideIndex.HighestWordBelow` | src/exchange/matching/matching_book.cpp:125-136 | the two summary levels find the last non-empty word before this one, if any |
| `TickLadder.SideIndex.HighestOccupiedBelow` | src/exchange/matching/matching_book.cpp:113-137 | the greatest occupied tick strictly below, or the band width when none is |
| `TickLadder.SideIndex.LowestWordAbove` | src/exchange/matching/matching_book.cpp:147-157 | the two summary levels find the first non-empty word after this one, if any |
| `TickLadder.SideIndex.LowestOccupiedAbove` | src/exchange/matching/matching_book.cpp:139-159 | the least occupied tick strictly above, or the band width when none is |
| `TickLadder.SideIndex.LevelFor` | src/exchange/matching/matching_book.cpp:161-178 | a level appears only if the price had none, and every other level keeps its value, across re-anchoring, band and overflow |
| `TickLadder.SideIndex.LevelAt` | src/exchange/matching/matching_book.cpp:218-223 | reads the level of an occupied price, wherever it is kept |
| `TickLadder.SideIndex.EraseLevel` | src/exchange/matching/matching_book.cpp:189-195 | exactly this price stops being occupied |
| `TickLadder.SideIndex.BestPrice` | src/exchange/matching/matching_book.cpp:197-212 | an occupied price, and no occupied price is better, over ladder and overflow together |
| `TickLadder.SideIndex.NextLaddered` | src/exchange/matching/matching_book.cpp:243-260 | the best laddered price strictly past any price, inside the band or not |
| `TickLadder.SideIndex.NextPrice` | src/exchange/matching/matching_book.cpp:239-287 | the best occupied price strictly past this one, and none exactly when none is left |
| `TickLadder.WalkVisitsAll` | include/exchange/matching/matching_book.hpp:222-224 | the first price and then each next one until there is none: every occupied price is visited exactly once, in strict priority order, on either side |
| `PriceTime.InsertSorted` | include/exchange/matching/matching_book.hpp:90-92 | joining the back of a price level keeps a queue in price order |
| `PriceTime.BackOfUnique` | include/exchange/matching/matching_book.hpp:90-92 | there is only one place behind every order at a price or better and ahead of every worse one |
| `MatchingBooks.SpliceChained` | src/exchange/matching/matching_book.cpp:317-326 | appending a slot to a level's chain keeps every chain of the side: previous and next inverse, ends right, one level per price and none empty |
| `MatchingBooks.CutChained` | src/exchange/matching/matching_book.cpp:328-341 | unlinking a slot from the middle, the front or the back keeps every chain of the side, and a level left without orders is gone |
| `MatchingBooks.MatchingBook.constructor` | src/exchange/matching/matching_book.cpp:291-298 | a new book satisfies the invariant and holds nothing |
| `MatchingBooks.MatchingBook.AcquireSlot` | src/exchange/matching/matching_book.cpp:300-310 | the slot handed out is in no chain: the head of the free list, or a new one |
| `MatchingBooks.MatchingBook.LinkBack` | src/exchange/matching/matching_book.cpp:317-326 | writes exactly the links that append a slot to a level |
| `MatchingBooks.MatchingBook.Unlink` | src/exchange/matching/matching_book.cpp:328-341 | writes exactly the links that take a slot out of a level |
| `MatchingBooks.MatchingBook.ReleaseSlot` | src/exchange/matching/matching_book.cpp:312-315 | the slot is the new head of the free list's chain, and no other slot's links or order change |
| `MatchingBooks.MatchingBook.Add` | src/exchange/matching/matching_book.cpp:343-350 | the side's price-time list gains the order at the back of its price level; the other side, every other handle and their order stay; the live count goes up by one |
| `MatchingBooks.MatchingBook.RemoveAt` | src/exchange/matching/matching_book.cpp:352-365 | exactly the handle's order leaves its list; every other handle keeps naming the same order; the live count goes down by one |
| `MatchingBooks.MatchingBook.ReduceAt` | src/exchange/matching/matching_book.cpp:367-369 | only the quantity of this order changes, and no place |
| `MatchingBooks.MatchingBook.SetClientOrderIdAt` | src/exchange/matching/matching_book.cpp:371-373 | only the client id of this order changes, and no place |
| `MatchingBooks.MatchingBook.Locate` | include/exchange/matching/matching_book.hpp:75-88 | a live handle names the order at exactly one place of its side's list |
| `MatchingBooks.MatchingBook.Best` | src/exchange/matching/matching_book.cpp:377-389 | the best price is that of the first order of the price-time list, and none when the list is empty |
| `MatchingBooks.MatchingBook.FrontOfBest` | src/exchange/matching/matching_book.cpp:391-397 | the front of the best level is the first order of the price-time list |
| `MatchingBooks.MatchingBook.ReduceFront` | src/exchange/matching/matching_book.cpp:399-402 | only the quantity of the first order of the list changes |
| `MatchingBooks.MatchingBook.RemoveFront` | src/exchange/matching/matching_book.cpp:404-415 | the list loses exactly its first order, and the level goes with its last order |
| `MatchingBooks.MatchingBook.AllOf` | src/exchange/matching/matching_book.cpp:439-452 | walking levels and chains lists the whole side in price-time order |
| `MatchingBooks.MatchingBook.CrossableQuantity` | src/exchange/matching/matching_book.cpp:417-437 | the early-stopping walk computes what the same walk of the price-time list does |
| `Matching.StepConsumes` | src/exchange/matching/matching_engine.cpp:214-288 | one trip of the loop trades with the first contra order, for the smaller quantity, at its price, both orders shown as it leaves them, and strikes it from the directory exactly when it is filled whole |
| `Matching.MatchConsumes` | src/exchange/matching/matching_engine.cpp:209-289 | the loop takes min(quantity, what crosses) from the front of the contra list, fills in list order at resting prices with both parties' remaining quantities, strikes exactly the orders filled whole from the directory, and stops for lack of one or the other |
| `Matching.CrossableCovers` | src/exchange/matching/matching_book.cpp:417-437 | the early-stopping walk covers the quantity exactly when the whole crossing quantity does |
| `Matching.FillsAddUp` | src/exchange/matching/matching_engine.cpp:234-264 | the fills sum to the quantity taken, each at a price within the limit |
| `Matching.ConsumeTotal` | src/exchange/matching/matching_engine.cpp:234-287 | what is taken is exactly what the queue's total loses |
| `EngineLaws.MatchSound` | src/exchange/matching/matching_engine.cpp:209-289 | matching keeps both queues sorted and positive, and every directory entry naming an order that rests |
| `EngineLaws.SettledUncrossed` | src/exchange/matching/matching_engine.cpp:209-322 | after matching and resting no bid reaches an ask |
| `EngineLaws.RemovalSound` | src/exchange/matching/matching_engine.cpp:455-458 | taking out an order with its directory entry keeps the engine sound |
| `EngineLaws.InPlaceSound` | src/exchange/matching/matching_engine.cpp:532-560 | a replace in place keeps the engine sound, whatever id it takes |
| `EngineLaws.ProcessSound` | src/exchange/matching/matching_engine.cpp:165-178 | every command, whatever it says, keeps every book sorted, positive and uncrossed and every directory entry naming a live order of that key |
| `EngineLaws.RunSound` | src/exchange/matching/matching_engine.cpp:165-178 | the same over any sequence of commands |
| `EngineTheorems.EnterEffect` | src/exchange/matching/matching_engine.cpp:209-322 | an order that enters trades exactly the front of the contra list up to its quantity and limit, as the aggressor of every trade; its remainder, with the order's own ids, price and side, rests behind its level exactly if it is GTC and not filled; the directory loses the filled orders and gains this one; no other book and no counter but the event number changes |
| `EngineTheorems.NewOrderEffect` | src/exchange/matching/matching_engine.cpp:324-423 | from the command's own fields: refused, with one rejection and no other change, for the first of unknown instrument, price not positive, quantity zero, live duplicate id, and FOK with less than its quantity crossing; accepted otherwise, with the announcement of exactly its fields, fills of min(quantity, crossing quantity) at prices within its limit, and a resting remainder exactly if GTC and not filled |
| `EngineTheorems.FillOrKill` | src/exchange/matching/matching_engine.cpp:376-391 | a well-formed FOK is filled in full when that much crosses and otherwise rejected with books and directory unchanged |
| `EngineTheorems.CancelEffect` | src/exchange/matching/matching_engine.cpp:425-475 | refused for an untraded instrument or a key that is not live there; otherwise takes out exactly the order of that key, wherever it stands, and announces exactly that |
| `EngineTheorems.ReplaceEffect` | src/exchange/matching/matching_engine.cpp:477-604 | refused for the first of untraded instrument, price or quantity not positive, key not live there, and for nothing else; otherwise same price and no larger quantity edits the order at its place without a trade, and anything else takes it out and enters a fresh order of the new ids, price and quantity |
| `EngineTheorems.ProcessMarked` | src/exchange/matching/matching_engine.cpp:165-201 | everything a command announces is about its instrument, carries its sequence number, and names its account where it concerns the sender |
| `EngineTheorems.ProcessNumbered` | src/exchange/matching/matching_engine.cpp:165-201 | event sequence numbers are gapless across everything a command announces |
| `Completeness.MatchComplete` | src/exchange/matching/matching_engine.cpp:266-277 | matching keeps a directory entry for every order still resting |
| `Completeness.InPlaceComplete` | src/exchange/matching/matching_engine.cpp:532-560 | renaming in place keeps an entry for every resting order if and only if the new key is free or its own |
| `Completeness.ProcessComplete` | src/exchange/matching/matching_engine.cpp:88-91 | every order on a book has its own directory entry after every command that does not take over a live id |
| `EngineLinks.LinkedRegister` | src/exchange/matching/matching_engine.cpp:63-86 | registering extends the id table without disturbing any book or entry |
| `EngineLinks.LinkedAdd` | src/exchange/matching/matching_engine.cpp:291-322 | a new handle and its directory entry name the same order |
| `EngineLinks.LinkedDrop` | src/exchange/matching/matching_engine.cpp:266-269 | erasing an entry with its order leaves every other entry's handle naming its order |
| `EngineLinks.LinkedRename` | src/exchange/matching/matching_engine.cpp:532-538 | moving an entry to a new key keeps its handle naming the renamed order |
| `EngineLinks.HandleIsNamed` | src/exchange/matching/matching_engine.cpp:455-458 | the handle of an entry and the exchange id of the specification lead to the same place of the same queue |
| `MatchingEngines.MatchingEngine.constructor` | src/exchange/matching/matching_engine.cpp:20-58 | the engine opens with an empty book for each registrable id of the universe, once |
| `MatchingEngines.MatchingEngine.RegisterInstrument` | src/exchange/matching/matching_engine.cpp:63-86 | true exactly for a new id within the limit; then one empty book more, else nothing changes |
| `MatchingEngines.MatchingEngine.Reject` | src/exchange/matching/matching_engine.cpp:180-201 | a rejection emits one event and changes only the event counter |
| `MatchingEngines.MatchingEngine.CrossableQuantity` | src/exchange/matching/matching_engine.cpp:203-207 | what the FOK check reads is the specification's walk of the contra side |
| `MatchingEngines.MatchingEngine.Trip` | src/exchange/matching/matching_engine.cpp:214-288 | one trip of the loop, on the real books and directory, is one step of the specification |
| `MatchingEngines.MatchingEngine.MatchAndRest` | src/exchange/matching/matching_engine.cpp:209-289 | the loop leaves the state and the events of the recursive matching function |
| `MatchingEngines.MatchingEngine.RestRemainder` | src/exchange/matching/matching_engine.cpp:291-322 | the remainder rests, with its directory entry, exactly when it is good-till-cancelled and not zero |
| `MatchingEngines.MatchingEngine.ProcessNewOrder` | src/exchange/matching/matching_engine.cpp:324-423 | the new state and the events announced are the specification's in every branch, which EngineTheorems.NewOrderEffect gives from the command's fields |
| `MatchingEngines.MatchingEngine.ProcessCancelOrder` | src/exchange/matching/matching_engine.cpp:425-475 | new state and events are the specification's, every rejection included |
| `MatchingEngines.MatchingEngine.ProcessReplaceOrder` | src/exchange/matching/matching_engine.cpp:477-604 | the new state and the events announced are the specification's in every branch, which EngineTheorems.ReplaceEffect gives, refusals and acceptance both |
| `MatchingEngines.MatchingEngine.Process` | src/exchange/matching/matching_engine.cpp:165-178 | the class over slabs, ladders, handles and tables refines the function over lists, and stays sound |
| `LedgerSpec.LegTransfers` | src/exchange/ledger/ledger.cpp:88-122 | one leg moves exactly price x quantity of cash one way and quantity of units the other |
| `LedgerSpec.ApplyConserves` | src/exchange/ledger/ledger.cpp:166-184 | no event, in any state, changes total cash or the total units of any instrument |
| `LedgerSpec.DepositAdds` | src/exchange/ledger/ledger.cpp:8-12 | a deposit adds exactly its amount to its asset's total |
| `Reservations.OpenMoves` | src/exchange/ledger/ledger.cpp:52-74 | opening a hold raises the reservation by its claim and leaves behind exactly what an overwritten hold claimed |
| `Reservations.OpenExact` | src/exchange/ledger/ledger.cpp:52-74 | opening a hold keeps reservations exact if and only if it overwrites none |
| `Reservations.OpenSolvent` | src/exchange/ledger/ledger.cpp:52-74 | opening a fresh hold keeps the account solvent if and only if what is available covers it |
| `Reservations.ReleaseExact` | src/exchange/ledger/ledger.cpp:76-86 | releasing a hold frees exactly its claim |
| `Reservations.ReleaseSolvent` | src/exchange/ledger/ledger.cpp:76-86 | releasing keeps exactness and solvency and returns the claim to what is available |
| `Reservations.LegHeld` | src/exchange/ledger/ledger.cpp:92-111 | a leg's hold gives up exactly the claim of the filled slice, at the limit price |
| `Reservations.LegExact` | src/exchange/ledger/ledger.cpp:88-122 | a leg whose hold agrees with the order keeps reservations exact |
| `Reservations.ApplyMoves` | src/exchange/ledger/ledger.cpp:88-164 | every event, on every ledger, changes each account's cash and units by exactly what it moves: a trade takes quantity times its price from the buyer to the seller and the quantity the other way, self-trades included, and nothing else moves anything |
| `Reservations.ApplyAllMoves` | src/exchange/ledger/ledger.cpp:124-184 | the same, summed over any sequence of events |
| `AccountLedgers.AccountLedger.DepositCash` | src/exchange/ledger/ledger.cpp:8 | the deposit of the specification, in place |
| `AccountLedgers.AccountLedger.DepositPosition` | src/exchange/ledger/ledger.cpp:10-12 | the deposit of the specification, in place |
| `AccountLedgers.AccountLedger.OpenHold` | src/exchange/ledger/ledger.cpp:52-74 | accounts and holds become the specification's, a zero quantity doing nothing |
| `AccountLedgers.AccountLedger.ReleaseHoldFully` | src/exchange/ledger/ledger.cpp:76-86 | only the reserved amount of the hold's account and asset goes down |
| `AccountLedgers.AccountLedger.SettleLeg` | src/exchange/ledger/ledger.cpp:88-122 | hold shrunk or erased, reservation released and balances moved as specified, with or without a hold |
| `AccountLedgers.AccountLedger.Apply` | src/exchange/ledger/ledger.cpp:124-184 | each event changes accounts and holds as specified; what that moves, for every claim, is Reservations.ApplyMoves, and what it keeps VenueLaws.CommandGood |
| `Gated.TradeSettles` | src/exchange/ledger/ledger.cpp:161-164 | settling a trade between two backed orders keeps the ledger exact and solvent, also when both are one account's; what it moves is Reservations.ApplyMoves |
| `Gated.MatchMid` | src/exchange/risk/risk_gated_engine.cpp:46-49 | the whole matching loop, with the ledger following event by event, keeps every hold behind its order and every event exact and solvent |
| `Gated.EnterGood` | src/exchange/risk/risk_gated_engine.cpp:46-49 | an admitted order enters and the full invariant holds again |
| `VenueLaws.CreditCovers` | src/exchange/risk/risk_engine.cpp:38-51 | what the replace credit lets through is covered once the old hold is released |
| `VenueLaws.NewGood` | src/exchange/risk/risk_gated_engine.cpp:11-30 | an admitted and accepted new order keeps the invariant, at every event on the way |
| `VenueLaws.CancelGood` | src/exchange/risk/risk_gated_engine.cpp:46-49 | a cancel keeps the invariant and releases exactly its hold |
| `VenueLaws.InPlaceGood` | src/exchange/risk/risk_gated_engine.cpp:31-49 | a replace in place to an id that is free, or its own, keeps the invariant |
| `VenueLaws.AnewGood` | src/exchange/risk/risk_gated_engine.cpp:31-49 | a cancel-plus-new replace to an id that is free, or its own, keeps the invariant |
| `VenueLaws.CommandGood` | src/exchange/risk/risk_gated_engine.cpp:10-50 | a command keeps uncrossed books, a hold behind each order and an order behind each hold, and at every event exact reservations and nobody overspent, if and only if it is not a replace that passes the gate and goes through onto another live id |
| `VenueLaws.ReplaceExactly` | src/exchange/risk/risk_gated_engine.cpp:31-49 | a replace that goes through leaves reservations exact at its own event if and only if its new id is not another live id of the account |
| `VenueRuns.DepositGood` | include/exchange/ledger/ledger.hpp:18-21 | a cash deposit, of any sign, keeps the invariant if and only if it leaves reserved cash covered; a unit deposit always does |
| `VenueRuns.ActionGood` | include/exchange/risk/risk_gated_engine.hpp:43-52 | a command or a deposit keeps the invariant if and only if it is admissible |
| `VenueRuns.RunGood` | include/exchange/risk/risk_gated_engine.hpp:43-52 | a run of commands and deposits keeps the invariant all the way, every event included, if and only if it is admissible, and then the state it reaches satisfies it |
| `VenueRuns.HoldsMatchOrders` | include/exchange/ledger/ledger.hpp:23-33 | holds and resting orders are in bijection, agreeing on key, instrument, side, price and remaining quantity |
| `VenueRuns.RunConserves` | include/exchange/ledger/ledger.hpp:18-21 | over every run, of whatever commands, each asset's total changes by exactly what was deposited |
| `VenueRuns.RunMoves` | include/exchange/ledger/ledger.hpp:18-21 | what an account owns after any run is what it owned, what was deposited to it and what the run's trades moved to or from it |
| `Admission.NewAdmission` | src/exchange/risk/risk_engine.cpp:7-24 | a new order is turned away, with one rejection and no change to books, accounts or holds, exactly when its instrument is not traded, it is larger than the limit, or what it claims at its limit price exceeds what is available, each with its own reason; otherwise the engine gets it |
| `Admission.ReplaceAdmission` | src/exchange/risk/risk_engine.cpp:26-54 | a replace is turned away exactly when its instrument is not traded, it is larger than the limit, or the part of its claim beyond the hold it replaces exceeds what is available; otherwise the engine gets it |
| `Admission.CancelAdmission` | include/exchange/risk/risk_engine.hpp:12-14 | a cancel always reaches the engine |
| `Admission.NewMeansSolvent` | include/exchange/risk/risk_engine.hpp:12-14 | a GTC order passes the gate if and only if the reservation it is about to make leaves nobody overspent |
| `Admission.ReplaceMeansSolvent` | include/exchange/risk/risk_engine.hpp:16-21 | a replace passes if and only if giving back the old reservation and making the new one leaves nobody overspent |
| `Admission.ProcessWithin` | src/exchange/matching/matching_engine.cpp:165-178 | an engine asked for no more than a quantity neither rests nor announces more of anything |
| `Admission.RunWithin` | src/exchange/risk/risk_engine.cpp:8-10 | from an opening, over every run of whatever commands: no resting order, no hold and no announced quantity, of a trade or of what it leaves, exceeds the limit |
| `Admission.RunNumbered` | src/exchange/risk/risk_gated_engine.cpp:24-28 | from an opening, everything a run announces, the gate's refusals included, is numbered 1, 2, 3 and so on |
| `VenueCounterexample.TakeoverOverspends` | include/exchange/risk/risk_gated_engine.hpp:43-52 | a concrete run, every command admitted and accepted, after which a replace onto a live id leaves an account owning 1 with 100 reserved |
| `RiskGatedEngines.RiskGatedEngine.Settle` | src/exchange/risk/risk_gated_engine.cpp:46-49 | the ledger hears every event, in order |
| `RiskGatedEngines.RiskGatedEngine.Process` | src/exchange/risk/risk_gated_engine.cpp:10-50 | both states and the events are the specification's, whose refusals are exactly those of Admission.NewAdmission and Admission.ReplaceAdmission; the invariant is kept, at every event, if and only if the command takes over no live id |
| `TraderSpec.OperationsKeepProper` | src/book/order_book.cpp:35-80 | every operation, failed or not, keeps ids unique and prices and quantities positive |
| `TraderSpec.AddEffect` | src/book/order_book.cpp:35-47 | refused for the first of price not positive, quantity zero and id already there; otherwise the order stands behind everything at its level and every other level is as it was |
| `TraderSpec.CancelEffect` | src/book/order_book.cpp:49-58 | refused when the id is unknown; otherwise every level is as it was without that order |
| `TraderSpec.ModifyEffect` | src/book/order_book.cpp:60-80 | refused for the first of three faults; otherwise the order keeps its side and goes behind everything at its new price, even the old one, and every other order stays where it is |
| `TraderSpec.ArrangedStable` | src/book/order_book.cpp:122-140 | the sorted side is in price order and keeps every level as it arrived |
| `TraderSpec.StableSortUnique` | src/book/order_book.cpp:122-140 | it is the only list that does both |
| `TraderSpec.FrontRun` | src/book/order_book.cpp:104-120 | the front run of a sorted side is its whole best level |
| `TraderSpec.LevelWithout` | src/book/order_book.cpp:19-33 | taking an order out of the list takes it out of its own level and leaves the others |
| `TraderBooks.PriceLevel.Add` | include/book/price_level.hpp:25-29 | the level gains the order at the back and the aggregate is again the sum |
| `TraderBooks.PriceLevel.Remove` | include/book/price_level.hpp:31-34 | the level loses exactly that order and the aggregate is again the sum |
| `TraderBooks.OrderBook.InsertAt` | src/book/order_book.cpp:7-17 | the arrival list gains the order at its end; index and levels agree with it |
| `TraderBooks.OrderBook.EraseAt` | src/book/order_book.cpp:19-33 | the arrival list loses exactly that order; a level left empty goes |
| `TraderBooks.OrderBook.AddOrder` | src/book/order_book.cpp:35-47 | outcome and list as specified; an error changes nothing |
| `TraderBooks.OrderBook.CancelOrder` | src/book/order_book.cpp:49-58 | outcome and list as specified; an error changes nothing |
| `TraderBooks.OrderBook.ModifyOrder` | src/book/order_book.cpp:60-80 | outcome and list as specified, the order re-queued at the back; an error changes nothing |
| `TraderBooks.OrderBook.Clear` | src/book/order_book.cpp:82-86 | the list is empty, and so are both sides and the index |
| `TraderBooks.OrderBook.Best` | src/book/order_book.cpp:88-102 | the first price group of the sorted side, with its exact sum and count |
| `TraderBooks.OrderBook.Top` | src/book/order_book.cpp:104-120 | the first n price groups of the sorted side, or all there are |
| `TraderBooks.OrderBook.All` | src/book/order_book.cpp:122-140 | the stable price sort of the arrival list |
| `BookManagers.ApplyKeepsProper` | src/replay/replay_engine.cpp:20-45 | no message, valid or not, makes a book improper |
| `BookRegistry.ApplyTo` | src/replay/replay_engine.cpp:24-41 | a message does to the book object it names what it does to the book's list |
| `BookRegistry.BookManager.BookFor` | include/book/book_manager.hpp:26 | the book of an instrument, an empty one when nothing named it yet; no other book changes |
| `BookRegistry.BookManager.RecordTrade` | src/book/book_manager.cpp:12-17 | trade statistics as specified, and no book changes |
| `BookRegistry.BookManager.ApplyEvent` | src/replay/replay_engine.cpp:20-45 | the registry of book objects moves to the specified books, and the answer says whether the book refused |
| `MarketData.PublishedNumbered` | include/exchange/market_data/market_data_publisher.hpp:28-33 | the feed is numbered consecutively and each message carries the clock's reading for its number, whatever the events |
| `MarketData.TapeIsExecutions` | src/exchange/market_data/market_data_publisher.cpp:82-91 | the feed's trades are the executed ones, all of them, in order, with instrument, price, quantity and aggressor side |
| `MarketData.FeedIsAnonymous` | include/exchange/market_data/market_data_publisher.hpp:16-27 | exchanges that differ only in whose orders they are publish the same feed |
| `MarketData.MarketDataPublisher.Publish` | src/exchange/market_data/market_data_publisher.cpp:33-91 | exactly the public events become messages, with the next feed number and the clock's time |
| `FeedMirror.FeedShows` | include/exchange/market_data/market_data_publisher.hpp:28-39 | what the feed does to the trader's books depends neither on its numbers nor on its clock |
| `FeedMirror.CommandFollows` | include/exchange/market_data/market_data_publisher.hpp:16-26 | after every command the published messages apply without an error and make the trader's books, as bags of orders, exactly the exchange's |
| `FeedMirror.FeedMirrorsExchange` | include/exchange/market_data/market_data_publisher.hpp:16-26 | over every run of commands from an opening exchange: no book error, the exact map from exchange id to side, price and remaining quantity and nothing in any other book, and numbers 1, 2, 3 and so on |
| `VenueFeed.GatedFollows` | src/exchange/risk/risk_gated_engine.cpp:10-50 | after every command, refused by the gate or not, the feed has taken the trader's books to the exchange's |
| `VenueFeed.FeedMirrorsVenue` | src/exchange/risk/risk_gated_engine.cpp:10-50 | the same mirror over every run of deposits and commands through the risk gate, admissible or not |
| `FeedMirror.MirrorLevels` | include/exchange/market_data/market_data_publisher.hpp:16-26 | a mirrored book shows at every price the exchange's total quantity and number of orders |
| `FeedMirror.TradesMirrored` | include/exchange/market_data/market_data_publisher.hpp:24-26 | folding the feed gives every instrument the exchange's number of trades, traded quantity and last trade price |
| `Arithmetic.NextPowerOfTwo` | include/common/spsc_queue.hpp:117-123 | for n up to 2^63 the loop ends with the smallest power of two that is not less than n, and never wraps |
| `Arithmetic.DoublingReaches` | include/common/spsc_queue.hpp:117-123 | the doubling, which wraps at 64 bits, reaches n if and only if n is at most 2^63 |
| `Arithmetic.MaskIsModulo` | include/common/spsc_queue.hpp:48-51 | masking with capacity - 1 is the remainder by the capacity |
| `Arithmetic.NoCollision` | include/common/spsc_queue.hpp:48-51 | two indices less than a lap apart never share a slot |
| `MpscQueue.StepInv` | include/common/mpsc_queue.hpp:60-98 | every atomic step of every thread keeps the queue's invariant |
| `MpscQueue.EveryInterleaving` | include/exchange/sequencing/matching_pipeline.hpp:24-41 | for any number of producers and every interleaving: indices within a lap, popped values exactly a prefix of reservation order, each producer's order kept, and command numbers 1, 2, 3 and so on in admission order |
| `MpscQueue.SlotsAreSafe` | include/common/mpsc_queue.hpp:73-96 | no slot has two owners, none is read before construction, none is built on top of an element |
| `MpscQueue.RefusedExactly` | include/common/mpsc_queue.hpp:58-66 | whatever happens in between, a push is refused if and only if its head is a lap ahead of the tail it loaded or behind it; not behind, the queue was full at the load; and a refusal changes nothing but the producer's own program counter |
| `MpscQueue.StaleHeadIsRefused` | include/common/mpsc_queue.hpp:58-66 | a concrete interleaving in which an empty queue refuses a push |
| `MpscQueue.PushAlone` | include/common/mpsc_queue.hpp:60-83 | a push that finds room and is not disturbed is accepted: it takes the next index, and its element and ticket are in that slot |
| `MpscQueue.PushRefused` | include/common/mpsc_queue.hpp:58-66 | a push that finds the queue full and is not disturbed is refused and changes nothing |
| `MpscQueue.PopAlone` | include/common/mpsc_queue.hpp:86-98 | a pop that finds the oldest element in place and is not disturbed takes it, frees its slot, and it is processed under the next number |
| `MpscQueue.PopFindsNothing` | include/common/mpsc_queue.hpp:89-91 | a pop finds nothing exactly when the queue is empty or whoever reserved the next index has not finished |
| `MpscQueue.DrainedMeansProcessed` | src/exchange/sequencing/matching_pipeline.cpp:33-48 | with producers at rest and nothing to read, everything accepted has been popped |
| `SpscQueue.StepInv` | include/common/spsc_queue.hpp:67-96 | every atomic step of either thread keeps the queue's invariant |
| `SpscQueue.EveryInterleaving` | include/common/spsc_queue.hpp:67-96 | over every interleaving: pushed = popped ++ contents, and occupancy <= high-water mark <= capacity |
| `SpscQueue.MarkAttained` | include/common/spsc_queue.hpp:76-79 | the high-water mark is attained: at some moment the producer, about to push, found one element less in the queue |
| `SpscQueue.RefusedWhenFull` | include/common/spsc_queue.hpp:65-72 | a refusal means the queue was full at the load of the tail, and changes nothing |
| `SpscQueue.AcceptedWhenNotFull` | include/common/spsc_queue.hpp:67-73 | a queue not full at the load of the tail accepts |
| `SpscQueue.EmptyMeansEmpty` | include/common/spsc_queue.hpp:84-91 | an empty pop means exactly that the queue was empty at the load of the head |
| `SpscQueue.ReadsWhatWasPushed` | include/common/spsc_queue.hpp:92-95 | the element read is the oldest one pushed, from a slot the producer does not touch |
| `SequenceValidators.SequenceValidator.Check` | src/common/sequence_validator.cpp:5-34 | classification and high-water mark as specified, in every branch |
| `SequenceValidators.JudgedByHighest` | src/common/sequence_validator.cpp:5-34 | of any stream: each number is judged by the highest before it, in order exactly when one more, duplicate exactly when equal, out of order exactly when below, and otherwise just the numbers in between are reported missing |
| `SequenceValidators.SeenOrReported` | src/common/sequence_validator.cpp:5-34 | of an increasing stream, each number up to the last was seen or lies in exactly one reported gap, and nothing is called duplicate or out of order |
| `MarketDataRouter.DropsAreNeverSilent` | include/exchange/market_data/market_data_router.hpp:146-148 | over every interleaving of publishing and draining, delivered and reported-missing numbers partition the numbers up to the last delivered, and the missing ones are exactly those dropped |
| `ByteIo.GetPut` | include/common/byte_io.hpp:31-97 | reading a big-endian field of any width gives the number that was put |
| `ByteIo.PutGet` | include/common/byte_io.hpp:31-97 | putting the number read gives back the same bytes |
| `ByteIo.GetPutAll` | include/common/byte_io.hpp:31-97 | a run of fields reads back as the numbers put |
| `ByteIo.PutGetAll` | include/common/byte_io.hpp:31-97 | bytes read as a run of fields are what putting those fields writes |
| `ByteIo.SignedRoundTrip` | include/common/byte_io.hpp:48-50 | two's complement: every 64-bit signed price survives the cast there and back, and so does every unsigned word |
| `ByteIo.PutUnsigned` | include/common/byte_io.hpp:31-46 | the shift loop appends exactly the big-endian bytes |
| `ByteIo.ByteReader.GetUnsigned` | include/common/byte_io.hpp:69-97 | the read loop gives the big-endian number and moves on by its width, or fails and stays when bytes are missing |
| `Codec.EncodedHeader` | src/protocol/encoder.cpp:9-16 | every encoded frame has the length its header says, and its header decodes to its kind, size, number and time |
| `Codec.DecodeUndoesEncode` | src/protocol/decoder.cpp:58-164 | decode(encode(event) ++ anything) is the event, for every event that fits the wire |
| `Codec.EncodeUndoesDecode` | src/protocol/decoder.cpp:58-164 | bytes that decode begin with exactly the encoding of what they decode to |
| `Codec.PutHeader` | src/protocol/encoder.cpp:9-16 | appends exactly the header's five fields |
| `Codec.EncodeInto` | src/protocol/encoder.cpp:24-63 | appends exactly the frame, field by field |
| `Codec.ReadHeader` | src/protocol/decoder.cpp:28-56 | the reader-based decoder computes the specified header or error |
| `Codec.ReadEvent` | src/protocol/decoder.cpp:58-164 | the reader-based decoder computes the specified event or error, in the same order of checks |
| `Framing.FileRoundTrip` | src/replay/event_file_reader.cpp:9-53 | the reader over any concatenation of encoded frames yields exactly those events |
| `Framing.EventFileReader.Next` | src/replay/event_file_reader.cpp:9-53 | one call yields the next frame, error or end of file as specified and consumes exactly its bytes |
| `Framing.PacketRoundTrip` | src/net/packet.cpp:9-93 | unpack(pack(seq, events)) is the events if and only if there are between 1 and 65535 |
| `Framing.UnpackedIsPacked` | src/net/packet.cpp:26-93 | a datagram that unpacks with no frame in error is exactly the packet of what it unpacks to |
| `Framing.PackFrames` | src/net/packet.cpp:9-24 | the buffers built are the specified packet, the count truncated to 16 bits and the length to 32 |
| `Framing.UnpackFrames` | src/net/packet.cpp:26-93 | header checks, frame walk and final offset check compute the specified result or error |
| `WireFormat.BigEndian` | docs/protocol.md:9-12 | each byte of a field is the number's digit to base 256, most significant first |
| `WireFormat.TwosComplement` | include/common/byte_io.hpp:48-50 | a price is written as the number congruent to it modulo 2^64 |
| `WireFormat.FrameLayout` | docs/protocol.md:37-74 | a message's frame has every field at its documented offset and nothing else |
| `WireFormat.DecodeByOffset` | docs/protocol.md:89-98 | which bytes are refused for which reason, in the decoder's order; all others say, field by field at the documented offsets, what they decode to |
| `WireFormat.AcceptedExactly` | src/protocol/decoder.cpp:28-164 | bytes decode if and only if they begin with the frame of a message |
| `WireFormat.CutFile` | src/replay/event_file_reader.cpp:9-46 | a file cut off anywhere reads as its whole frames and then one error, saying whether a header or a payload is short, unless it was cut between frames |
| `WireFormat.DamagedFrame` | src/replay/event_file_reader.cpp:25-53 | a damaged frame whose length can be told costs one error and no other message |
| `WireFormat.PacketLayout` | docs/protocol.md:159-172 | a packet has its magic number, version, count, sequence and length at the documented offsets, then the frames |
| `WireFormat.UnpackByOffset` | docs/protocol.md:174-199 | which datagrams are refused for which reason; one is accepted exactly when what follows its header is as many frames as it counts, each as long as its own header says, and then each frame gives its message or its own error |
| `BookEquivalence.SameSides` | src/book/order_book.cpp:122-140 | books with the same levels show the same sorted sides |
| `BookEquivalence.SidesSame` | src/book/order_book.cpp:122-140 | books that show the same sorted sides have the same levels |
| `BookEquivalence.ApplySame` | src/replay/replay_engine.cpp:20-45 | being the same book, level by level, is a congruence for every message, errors included |
| `BookEquivalence.ApplyAllSame` | src/replay/replay_engine.cpp:20-45 | the same over any sequence of messages |
| `BookEquivalence.Restacked` | src/replay/snapshot.cpp:14-28 | a book written side by side and added again is the same book |
| `Snapshot.Instruments` | src/book/book_manager.cpp:24-33 | every instrument an order or a trade has named, once each, ascending |
| `Snapshot.AppendSide` | src/replay/snapshot.cpp:14-28 | appends one add message for each order of a side and counts them |
| `Snapshot.AppendBook` | src/replay/snapshot.cpp:36-43 | appends both sides of a book that exists and nothing for one that does not |
| `Snapshot.WriteSnapshot` | src/replay/snapshot.cpp:32-61 | the bytes written are a snapshot of the registry's books |
| `Snapshot.ReadSnapshot` | src/replay/snapshot.cpp:63-128 | reading fails exactly when the specified load fails, and otherwise builds a registry with the loaded books |
| `Snapshot.SnapshotRoundTrip` | src/replay/snapshot.cpp:32-128 | reading back a snapshot succeeds and restores the number and every non-empty book with its order inside each level; the entry count is the number of resting orders |
| `Snapshot.EntriesStamped` | src/replay/snapshot.cpp:14-28 | every entry written is an add with the snapshot's own number and timestamp zero |
| `WireFormat.SnapshotLayout` | docs/protocol.md:252-260 | a snapshot has its magic number, version, zero, sequence number and entry count at the documented offsets, then the entries' frames |
| `WireFormat.LoadsExactly` | src/replay/snapshot.cpp:63-128 | a snapshot loads if and only if its header is in order and as many add messages as it counts follow, each accepted by its book; and then to the books those messages make |
| `Replay.AppliedInOrder` | src/replay/replay_engine.cpp:68-110 | with the sequence gate on, over any stream and even if the stop is ignored: applied numbers increase, the last is recorded, and messages = adds + cancels + modifies + trades + clears |
| `Replay.InOrderApplies` | src/replay/replay_engine.cpp:68-110 | consecutive messages are all applied, with no new failure and no stop |
| `Replay.SnapshotLoads` | src/replay/replay_engine.cpp:86-98 | the books a recovery loads are the same books the snapshot was taken of |
| `Replay.GapApplies` | src/replay/replay_engine.cpp:86-108 | the message that reveals a gap is applied to the loaded books and becomes the baseline |
| `Replay.GapRecovery` | src/replay/replay_engine.cpp:68-110 | if the snapshot was taken just before the message that reveals the gap, any receiver ends with the same books as the run that lost nothing, with one failure and one recovery counted |
| `Replay.LosslessReplay` | src/replay/replay_engine.cpp:112-138 | a file of consecutive messages replays with no decode or sequence failure to the books the messages make |
| `Replay.Replayer.Take` | src/replay/replay_engine.cpp:106-108 | counts a message and applies it, as specified |
| `Replay.Replayer.Recover` | src/replay/replay_engine.cpp:86-98 | replaces the books by the snapshot's and resets the validator, or stops |
| `Replay.Replayer.ApplyFrameResult` | src/replay/replay_engine.cpp:68-110 | statistics, books, baseline, stop and answer are the specification's in every branch; over a whole stream that is ReplayStops.ReplayStopsAt |
| `Replay.RunReplay` | src/replay/replay_engine.cpp:112-138 | the loop over the file leaves the outcome of the recursive replay, which ReplayStops.ReplayStopsAt characterises for every file and option |
| `ReplayStops.ReplayStopsAt` | src/replay/replay_engine.cpp:68-138 | for every stream of frames and every option: the replay runs to the first frame that halts it, or to the end; it reports why; it has applied exactly what could be read before, counted by kind, and the books are what those messages make, or what those from the last gap on make of the snapshot |
| `ReplayStops.GateExactly` | docs/protocol.md:132-138 | with the sequence gate on and no snapshot, a replay that tolerates bad frames reaches the end if and only if every message is numbered one past the one before |
| `EndToEnd.SameMirrors` | src/replay/replay_engine.cpp:86-98 | whether books mirror the exchange is told by their levels alone, so a recovered book can |
| `EndToEnd.ReplayMirrors` | src/replay/replay_engine.cpp:112-138 | whatever events a trader's books follow, the file of their feed replays without a failure to those books; so for the engine alone as for the gated exchange |
| `EndToEnd.RecoveryMirrors` | src/replay/replay_engine.cpp:86-108 | the same after a loss, for a receiver that recovers from a snapshot taken just before the revealing message |
| `EndToEnd.LosslessMirror` | src/replay/replay_engine.cpp:112-138 | for every run of deposits and commands through the risk gate, replaying the file of its feed ends with exactly the exchange's resting orders and no failure |
| `EndToEnd.RecoveredMirror` | src/replay/replay_engine.cpp:86-108 | for every such run, a receiver that missed part of the feed and recovers from a snapshot taken just before the revealing message ends with exactly the exchange's resting orders |
| `FeedGenerator.SwapRemoveAre` | apps/feed_generator/main.cpp:161-163 | swap-remove takes out exactly the chosen order and keeps the rest distinct |
| `FeedGenerator.TurnRanged` | apps/feed_generator/main.cpp:132-214 | every round's numbers fit the wire and every price stays at 100 or more |
| `FeedGenerator.TurnLive` | apps/feed_generator/main.cpp:137-213 | what a round's event does to the books, without an error, is what the round does to the open orders |
| `FeedGenerator.FeedIsPaced` | apps/feed_generator/main.cpp:100-190 | whatever the draws, every price is at least 100 ticks, every quantity 1 to 100, and each event comes 1 to 1000 ns after the one before |
| `FeedGenerator.EraseInstrument` | apps/feed_generator/main.cpp:210 | keeps exactly the open orders of other instruments, in order |
| `FeedGenerator.Generate` | apps/feed_generator/main.cpp:116-214 | the loop writes the specified feed and ends with the specified open orders |
| `FeedGenerator.GeneratedFeedReplays` | apps/feed_generator/main.cpp:6-8 | for every choice of draws and wherever it is cut off, the feed's file replays with no decode, sequence or book error, and the open orders are exactly those live in the books |
| `SplitMix.ShiftedDivides` | include/exchange/testing/matching_workload.hpp:62-64 | a shift to the right by k is division by 2^k |
| `SplitMix.MixIsBijective` | include/exchange/testing/matching_workload.hpp:59-65 | the output mix is a bijection of the 64-bit numbers |
| `SplitMix.FullPeriod` | include/exchange/testing/matching_workload.hpp:59-65 | from any state, every 64-bit value is drawn exactly once in the first 2^64 draws |
| `SplitMix.RefusedIsPartialBlock` | include/exchange/testing/matching_workload.hpp:73-75 | the rejection limit is 2^64 mod bound |
| `SplitMix.BelowIsUniform` | include/exchange/testing/matching_workload.hpp:67-81 | of the values not refused, exactly (2^64 - 2^64 mod bound) / bound leave each remainder |
| `SplitMix.AcceptsSoon` | include/exchange/testing/matching_workload.hpp:76-79 | no more draws in a row than 2^64 mod bound are refused, so the loop ends |
| `SplitMix.BetweenIsUniform` | include/exchange/testing/matching_workload.hpp:83-86 | every value of an inclusive range is given by the same positive number of the accepted 64-bit draws if and only if the range is not all 64-bit values; a range of size s > 1 gives each (2^64 - 2^64 mod s) / s |
| `SplitMix.BetweenCovers` | include/exchange/testing/matching_workload.hpp:83-86 | every value of an inclusive range can come out if and only if the range is not all 64-bit values |
| `SplitMix.SplitMix64.Next` | include/exchange/testing/matching_workload.hpp:59-65 | state and output are those of the next position of the period |
| `SplitMix.SplitMix64.Below` | include/exchange/testing/matching_workload.hpp:69-81 | the loop ends within 2^64 mod bound + 1 draws with the first draw that is not refused, reduced by the bound |
| `SplitMix.SplitMix64.Between` | include/exchange/testing/matching_workload.hpp:84-86 | a value of the range, from one bounded draw or none |

## Left out

* Sockets, pollers, TCP and UDP, HTTP, the user interface, argument parsing, threads' names and pinning, files
  that cannot be opened for writing: plumbing around the logic modelled here. A file is its bytes.
* Weak memory: each atomic operation is one sequentially consistent step, and queue indices stay below 2^64.
- MpscQueue.EveryInterleaving: does not state a bound on `high_water_mark`, whose computation can wrap when the consumer has already overtaken the producer (`include/common/mpsc_queue.hpp:77`); a compare-exchange that would take the head to 2^64 is modelled as one that fails.
- SpscQueue.EveryInterleaving: does not cover `size()`, which is best-effort by its own comment.
- MpscQueue.DrainedMeansProcessed: does not show that a stop request always comes after the last push; nothing in the source orders the two.
- MarketDataRouter.DropsAreNeverSilent: a message stands for its feed number, since dropping does not depend on what it says; batching, wake-ups and the publish-cost counters of the routing thread, which only group deliveries, are not modelled.
- VenueRuns.RunGood: does not model 64-bit overflow of price x quantity or of balances; amounts are unbounded integers.
- Admission.NewAdmission: does not model that `available_position` is unsigned (`src/exchange/ledger/ledger.cpp:22-31`): a negative available position, which only a run with a takeover reaches, counts as short here and would wrap to a large number there; Admission.ReplaceAdmission likewise.
- MatchingBooks.MatchingBook.Add: does not model the 32-bit width of a slot, nor allocation failure.
- MatchingBooks.MatchingBook.CrossableQuantity: does not model the wrap of a 64-bit sum of resting quantities.
- TickLadder.SideIndex.Anchor: does not model a band that would leave the signed 64-bit price range; the base is an unbounded integer.
- MatchingEngines.MatchingEngine.constructor: does not model `expected_resting_orders`, which only sizes allocations, nor the sorted `by_id_` table and `snapshot()` that read it.
- FeedMirror.FeedMirrorsExchange: does not state queue order inside a level, which the trader's `modify_order` changes by design.
- Snapshot.SnapshotRoundTrip: does not restore trade statistics or empty books, which the code does not write.
- Replay.AppliedInOrder: holds with `stop_on_sequence_error` set; without it the code applies duplicates and reordered messages by design. Stop reasons are values instead of text.
- Replay.RunReplay: does not model a file that cannot be opened, nor the duration it measures.
- FeedGenerator.Generate: takes the draws as a list, each within the range of its distribution, in as many rounds as keep the timestamp below 2^64, and one instrument less than a 32-bit number can count, since `args->instruments + 1` wraps for the most (`apps/feed_generator/main.cpp:111`).
- SplitMix.BelowIsUniform: counts 64-bit values; that a run of draws visits each of them once is `SplitMix.FullPeriod`.
* Order-entry codec, gateway sessions, command journal, trader order management, strategies, latency tracing and
  benchmarks are not part of this model.
