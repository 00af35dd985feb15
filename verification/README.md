# OpenMarketSim: order book, accounts, event engine and clocks

A Dafny model of the parts of OpenMarketSim on which its results rest, with proofs of what they promise:

- **The limit order book and matching engine** (`orders`, `price_time`, `matching`, `submission`, `parties`,
  `runs`, `overtaking`, `execution`, and the objects in `price_level`, `level_loops`, `book_sides`, `order_book`). The
  reference is one price-time queue per side and `Consume`, which eats a queue from its front. The objects (orders,
  levels with their id index and volume, a book with two price-sorted lists of levels and a global index) are updated
  in place and proved against it. The matching loop moves past a partly filled order, so on a crossed book it is not
  price-time matching; the model keeps it as it is, gives a condition on the two queues before the call under which
  it is, and no other, and proves that every book that one limit order makes of a reachable one meets it.
- **Accounts** (`accounts`, `delivery`, `market_delivery`): the cases of `update_position` as one netting rule, profit
  and loss over whole trade histories, and conservation over all accounts.
- **The exchange** (`venue`, `listing`, `floor`, `positions`, `exchange`): seeding, submission, cancellation, sessions,
  delivery of trades, what an order does to each member's position, and what whole runs do to all accounts together;
  `listing` ties the book objects to the values the exchange works on.
- **The event engine** (`event_queue`, `event_runs`, `engine`, `latency`, `publishing`): order of events, the clock, why
  runs stop, periodic callbacks, when a latency can be negative, and when market data is scheduled into the past.
- **Clocks of the nodes** (`clock_sync`, `clock_synchronizer`, `drift`, `drift_compensator`): error bounds of the
  synchronised offsets, and the least-squares drift rate.
- **The trend follower** (`trend`, `trend_follower`): its signal, and what trimming the price history does to it.

Prices, quantities and money are exact reals; timestamps are integers (nanoseconds). Bids and asks are treated alike
through `Rank`, which orders prices best first. Node answers, random draws and wall-clock readings are parameters.

Eight facts about the code come out of the proofs:

- `match_orders` gives up time priority on some crossed books (`Matching.Overtaken`); exactly which can be read off
  the two queues (`Overtaking.MatchLoopIsPriceTimeIff`). One limit order added to a reachable book never makes such a
  book (`Overtaking.ReachableIsPriceTime`).
- An order at price zero replaces the level at price zero, if there is one, instead of joining it, and what rested
  there is lost (`Matching.ZeroPriceLoses`); exactly then adding is not placing (`Matching.CodedAddIsPlaceIff`).
- An order submitted under the id of a resting one takes that one's place in the index, and the resting one can no
  longer be cancelled; the index stays right exactly when no resting order has the id (`OrderBooks.RegisteredWithIff`).
  The market maker quotes under the same two ids every time (engine/src/actor.cpp:308-460).
- An account that trades with itself is booked as the buyer only, which creates instruments
  (`Delivery.SelfTradeCreates`). Between limit orders of members, quantities are conserved exactly when nobody does
  (`Delivery.Conservation`, and over whole runs `Floors.RunConserves`).
- The taker of a market order goes by a made-up id and is not booked unless the book happens to know that id: a
  market buy makes what it buys disappear, a market sale creates it (`MarketDelivery.MarketConservation`, and over whole
  runs `Floors.RunMoves`).
- Each trade is delivered twice, by the matching engine's callback and by the loop over its result, so positions move
  by twice what was traded (`Delivery.PositionsDouble`, `Floors.LimitArrivalDoubles`).
- A jitter of two nanoseconds more than the base latency can schedule market data into the past, where it is processed
  out of order (`Publishing.LatePublishingBreaksTheOrder`). Exactly which latency models can is known
  (`Latency.NeverLateIff`); a jitter larger by one makes a latency negative, but not late (`Latency.AroundTheBound`).
- Trimming the price history to twice the long window changes the trend signal when the short window is longer than
  that (`Trend.TrimmingKeepsSignalIff`).

`dafny verify dfyconfig.toml` checks everything.

## Model

| member | source | states |
|---|---|---|
| `Orders.Order.Execute` | engine/src/order_book.cpp:35-47 | A fill is refused without effect if it is not positive or exceeds what remains; otherwise it is taken off, executed plus remaining stays the quantity, and the order is filled exactly when nothing remains. |
| `PriceTime.PlaceIsPriceTime` | engine/src/order_book.cpp:80-84 | A new order goes behind all orders at its price or a better one and before all worse ones; nothing else moves. |
| `PriceTime.PlaceKeeps` | engine/src/order_book.cpp:107-128 | Adding a live order with a new id keeps the queue sorted and free of duplicates, adds just that order and its volume. |
| `Matching.CodedAddIsPlaceIff` | engine/src/order_book.cpp:111-124 | The code's way of finding or creating a level places the order by price and time exactly when its price is not zero or no level stands at price zero. |
| `Matching.ZeroPriceLoses` | engine/src/order_book.cpp:113-117 | A second bid at price zero replaces the first. |
| `PriceTime.WithoutKeeps` | engine/src/order_book.cpp:130-166 | Cancelling removes exactly the entries with the id and keeps the queue well formed. |
| `PriceTime.ConsumeIsPriority` | engine/src/order_book.cpp:199-251 | Eating a queue fills a prefix of it completely and in order, at most the next order partly, and touches nothing behind. |
| `PriceTime.ConsumeTotals` | engine/src/order_book.cpp:199-309 | What is taken plus what is left is what was wanted; something is left only if the queue ran out within the limit; the volume falls by what was taken. |
| `PriceTime.FillsAreWithin` | engine/src/order_book.cpp:320-340 | Every fill is a positive part of a resting order whose price the limit accepts. |
| `PriceTime.ConsumeKeeps` | engine/src/order_book.cpp:199-309 | Eating leaves a well-formed queue whose entries are old entries, unchanged or with less remaining. |
| `PriceTime.ConsumeConcat` | engine/src/order_book.cpp:205-251 | Eating level after level is eating the one queue made of all levels. |
| `Matching.FlatSorted` | engine/src/order_book.hpp:224-228 | The levels in map order, read one after the other, form a sorted queue of live orders headed by the best price. |
| `Matching.RegroupFlat` | engine/src/order_book.hpp:224-228 | Grouping that queue by price gives the levels back. |
| `Matching.FlatRegroup` | engine/src/order_book.hpp:224-228 | Any queue is the flattening of its grouping. |
| `Matching.RegroupLadder` | engine/src/order_book.hpp:224-228 | The grouping of a sorted queue is a list of non-empty levels with strictly worse and worse prices. |
| `Matching.MatchQueuesConserves` | engine/src/order_book.cpp:331-361 | The inner loop takes from both levels exactly what it trades. |
| `Matching.MatchLoopKeeps` | engine/src/order_book.cpp:311-370 | Whatever crossed book it starts from, the loop ends with levels in order that do not cross. |
| `Matching.MatchLoopSettles` | engine/src/order_book.cpp:311-378 | The loop ends uncrossed, takes the same quantity off both sides, which is the quantity traded, and every trade is in the book's instrument, names a resting bid and its actor as the buyer and a resting ask and its actor as the seller, takes a positive quantity that both had, and is at the ask's price, which the bid accepts. |
| `Overtaking.MatchLoopIsPriceTimeIff` | engine/src/order_book.cpp:335-361 | On any two sides, crossed or not, the loop makes the trades of price-time matching exactly when no two orders whose prices cross, whose stretches of the running totals of the two queues overlap and which end at different totals both have a successor at their own price; and then it leaves the same queues. |
| `Overtaking.NeverOvertakesIff` | engine/src/order_book.cpp:350-360 | That condition on the queues before the call says exactly that the loop, wherever its run goes, never moves past a partly filled order that still has a turn. |
| `Overtaking.NonePassedStep` | engine/src/order_book.cpp:339-347 | The condition survives a trade of the two front orders: it holds exactly if those two are not a bad pair and it holds of what the trade leaves. |
| `Overtaking.OneOrderIsNotPassed` | engine/src/order_book.cpp:519-526 | One order added to a book at rest meets the condition. |
| `Overtaking.ReachableIsPriceTime` | engine/src/order_book.cpp:505-526 | After any run of submissions, sweeps and cancellations from rest, matching the next limit order never overtakes and is price-time matching. |
| `Matching.OneLevelEach` | engine/src/order_book.cpp:335-361 | For one level a side the condition is that the two lists ask for equal quantities position by position, but for the last of the shorter one. |
| `Matching.Overtaken` | engine/src/order_book.cpp:350-360 | A smallest book in which the loop trades a later order while an earlier one at the same price is unfilled. |
| `Submission.CrossingIsAlone` | engine/src/order_book.cpp:111-124 | Added to an uncrossed side, an order better than its best price stands alone in a new level at the top. |
| `Submission.LoneBid` | engine/src/order_book.cpp:335-361 | A lone crossing bid eats the ask queue from the front through the two-iterator loop. |
| `Submission.LoneAsk` | engine/src/order_book.cpp:335-361 | A lone crossing ask eats the bid queue from the front, at its own price. |
| `Submission.LimitOrderIsPriceTime` | engine/src/order_book.cpp:311-370 | On an uncrossed book, adding one limit order and matching gives the trades and the final book of the specification: eat the opposite queue up to the limit, rest the remainder last at its price. |
| `Parties.LimitTradesSay` | engine/src/order_book.cpp:474-490 | Trade by trade, field by field: a limit order's trades are its fills in order, between its own id and actor on its side and the maker's on the other, at the fill's quantity and the seller's limit. |
| `Parties.MarketTradesSay` | engine/src/order_book.cpp:222-237 | The same for a market order: the taker's actor under the counted id, the maker's id and actor opposite, the fill's quantity and the maker's price. |
| `Parties.LimitOrderParties` | engine/src/order_book.cpp:519-526 | Every trade of a limit order is its own, with an order that rests on the other side and gives no more than it has. |
| `Parties.MarketOrderParties` | engine/src/order_book.cpp:199-309 | Every trade of a market order is the taker's, the k-th under the k-th made-up id, with an order that rests on the other side. |
| `Parties.MarketIdsDiffer` | engine/src/order_book.cpp:222-237 | The made-up ids are numbered in decimal from `market_0`, and no two are the same. |
| `Runs.StepKeepsRest` | engine/src/order_book.cpp:107-309 | Submissions, sweeps and cancellations lead from an uncrossed, well-formed book to another. |
| `Runs.RunKeepsRest` | engine/src/order_book.cpp:107-378 | So does any sequence of them. |
| `Runs.StepAccounts` | engine/src/order_book.cpp:35-47 | No step changes what remains of an order other than by the trades that name it, its own submission or its cancellation; trades that carry its id only because that id was made up for the taker of a market order are taken out, and only `market_k` ids have any. |
| `Runs.OrderLife` | engine/src/order_book.cpp:35-47 | Over any run from its submission that does not use its id again, the quantity of an order is what its own trades have taken plus what still rests, and the rest is between zero and the quantity; trades under an id made up for a taker are accounted for in the same way. |
| `Runs.RemainderNeverGrows` | engine/src/order_book.cpp:35-47 | Between any two points of a run what remains of an order never grows, unless its id is submitted again. |
| `Runs.RunTradesPositive` | engine/src/order_book.cpp:339-347 | No trade of any run is of zero or negative quantity. |
| `Execution.BestExecution` | engine/src/order_book.cpp:199-309 | A market buy costs no more, and a market sell yields no less, than any other way of taking the same quantity from the resting orders. |
| `Execution.SweepDepth` | engine/src/order_book.cpp:205-214 | A market order executes the lesser of its quantity and the resting depth. |
| `Execution.Splitting` | engine/src/order_book.cpp:199-309 | Two orders one after the other leave the same queue as one of the sum, take the same from every order, and pay the same. |
| `Execution.LimitIsMarketIff` | engine/src/order_book.cpp:320-340 | A limited sweep equals an unlimited one exactly when it wants no more than the depth within the limit or everything is within the limit. |
| `Execution.LimitActsAsMarket` | engine/src/order_book.cpp:505-526 | With depth enough within its limit, a limit order fills the same orders by the same quantities and leaves the same book as a market order. |
| `Execution.TradesCorrespond` | engine/src/order_book.cpp:329-347 | The two lists of trades agree trade by trade, but for the taker's id and, for sells, the price, which is the incoming ask's. |
| `PriceLevels.PriceLevel.AddOrder` | engine/src/order_book.cpp:80-84 | The order joins the end of the list; list, index, queue and volume agree again. |
| `PriceLevels.PriceLevel.RemoveOrder` | engine/src/order_book.cpp:86-96 | The order with the id leaves its place, if there is one; list, index and volume agree again. |
| `PriceLevels.PriceLevel.Fill` | engine/src/order_book.cpp:217-244 | A fill in the middle of a level: the order shrinks, or leaves list and index once filled, and the volume follows (the repair described below). |
| `LevelLoops.SweepLevel` | engine/src/order_book.cpp:210-245 | The inner loop of a market order eats the level's queue from the front and records its trades. |
| `LevelLoops.MatchPair` | engine/src/order_book.cpp:336-360 | One pass of the inner matching loop fills one pair, and both iterators move on or stand at the successors. |
| `LevelLoops.MatchLevels` | engine/src/order_book.cpp:331-361 | The inner matching loop on two level objects computes `MatchQueues` of their queues. |
| `BookSides.AddToSide` | engine/src/order_book.cpp:111-124 | Finding or creating the level and adding to it is `Place` on the side's queue. |
| `BookSides.RemoveFromSide` | engine/src/order_book.cpp:140-157 | Looking up the level, removing the order and erasing an emptied level is `Without` on the side's queue. |
| `BookSides.SweepSide` | engine/src/order_book.cpp:203-301 | The outer loop of a market order is `Consume` on the side's queue, with its trades in order. |
| `BookSides.MatchFronts` | engine/src/order_book.cpp:316-369 | One round of the outer matching loop: the best levels matched, emptied ones erased, filled orders gone. |
| `OrderBooks.OrderBook.AddOrder` | engine/src/order_book.cpp:107-128 | The order is placed by price and time on its side, the other side is untouched, and all indexes agree. |
| `OrderBooks.RegisteredWithIff` | engine/src/order_book.cpp:107-109 | Entering an order in the global index keeps it right exactly when no resting order has the same id; otherwise that one rests on without an entry. |
| `OrderBooks.OrderBook.RemoveOrder` | engine/src/order_book.cpp:130-166 | The step `Cancel` of the specification; true exactly if the order was resting, and the id is forgotten either way. |
| `OrderBooks.OrderBook.ProcessMarketOrder` | engine/src/order_book.cpp:199-309 | The step `Sweep` of the specification, trades included; each trade is the taker's with an order that rested opposite; the index keeps the filled orders. |
| `OrderBooks.OrderBook.MatchOrders` | engine/src/order_book.cpp:311-378 | Computes `MatchLoop`; every trade is between a bid and an ask that rested, with their actors as buyer and seller; orders that no longer rest are filled, and all indexes agree. |
| `OrderBooks.OrderBook.IsAtRest` | engine/src/order_book.cpp:107-378 | A valid, uncrossed book object is a book at rest: sorted, live, no id twice on or across the sides. |
| `OrderBooks.OrderBook.BestBid` | engine/src/order_book.cpp:384-389 | The price at the head of the bid queue. |
| `OrderBooks.OrderBook.BestAsk` | engine/src/order_book.cpp:391-396 | The price at the head of the ask queue. |
| `OrderBooks.OrderBook.Spread` | engine/src/order_book.cpp:450-459 | The best ask less the best bid, present exactly when both sides are; positive exactly when the book does not cross. |
| `OrderBooks.OrderBook.Depth` | engine/src/order_book.cpp:398-418 | The best levels in order, each with the sum of what remains of its orders. |
| `OrderBooks.MatchingEngine.SubmitLimitOrder` | engine/src/order_book.cpp:519-526 | Add, then match: never leaves the book crossed, and from an uncrossed book it is the step of the specification, all of whose trades are the order's own with orders that rested opposite. |
| `OrderBooks.MatchingEngine.ProcessOrder` | engine/src/order_book.cpp:505-535 | Market orders sweep, limit orders are added and matched, other types are rejected; on an uncrossed book each is a step of the specification, the book stays uncrossed, and every trade is the order's own with an order that rested opposite. |
| `Accounts.BuyingNets` | engine/src/actor.cpp:99-127 | All cases of a buy are one netting: the closing part realizes profit at the old average, the rest is held at cost. |
| `Accounts.SellingNets` | engine/src/actor.cpp:128-163 | The same for all cases of a sale. |
| `Accounts.BuyInto` | engine/src/actor.cpp:99-124 | The buying branch computes the position the specification names, and it nets. |
| `Accounts.SellFrom` | engine/src/actor.cpp:128-159 | The selling branch likewise. |
| `Accounts.Actor.UpdatePosition` | engine/src/actor.cpp:88-168 | Books the trade; capital plus cost less realized profit is unchanged. |
| `Accounts.HistoryKeepsStake` | engine/src/actor.cpp:88-168 | So it is over any history of trades of non-negative quantity. |
| `Accounts.ProfitAndLoss` | engine/src/actor.cpp:170-181 | After any history the portfolio value is initial capital plus realized plus unrealized profit less the cost of unpriced positions; so profit explains value exactly when those cost nothing, in particular when everything held is priced. |
| `Accounts.ProfitIsGain` | engine/src/actor.cpp:237-249 | Realized plus unrealized profit at any marks is what the trades themselves gained: the sum of signed quantity times mark less price. |
| `Accounts.Actor.Value` | engine/src/actor.cpp:170-181 | The loop computes the portfolio value. |
| `Delivery.DeliveryMoves` | engine/src/exchange.cpp:544-564 | A delivery moves total capital and quantity by exactly the legs that are booked, which needs an account and an order the book knows. |
| `Delivery.Conservation` | engine/src/exchange.cpp:537-565 | Over any trades between limit orders of members, an instrument's total quantity is conserved exactly when nobody trades it with himself, and capital, at positive prices, exactly when nobody trades with himself at all. |
| `Delivery.TotalsMove` | engine/src/exchange.cpp:537-565 | Over any trades at all, the totals move by exactly the legs that have no counterpart. |
| `Delivery.SelfTradeCreates` | engine/src/exchange.cpp:546-553 | One self-trade that leaves one unit too many. |
| `Delivery.PositionsDouble` | engine/src/exchange.cpp:189-193 | Delivered by callback and by loop, any trades move a position by twice the net quantity traded under known orders, which is all of it if all orders are known. |
| `MarketDelivery.MarketConservation` | engine/src/exchange.cpp:544-564 | Delivering a market order of a member, filled by orders of members, moves the totals by exactly what the missing legs leave over. A sale conserves quantity, and capital at positive prices, if and only if every id made up for the taker is known and it meets none of its own orders; a buy conserves either if and only if what is booked twice for its own orders makes up for what is not booked for others. With no such id known and no own order met, a buy loses and a sale creates all that was traded. |
| `MarketDelivery.MarketBuyLoses` | engine/src/order_book.cpp:222-237 | One market buy after which one unit is missing. |
| `Delivery.NoticeIsHarmless` | engine/src/exchange.cpp:256-281 | A notice of zero quantity changes no capital, quantity, realized profit or cost. |
| `Venues.SeedingRests` | engine/src/exchange.cpp:195-233 | Seeding around a positive price leaves an uncrossed book with distinct ids. |
| `Venues.SeedsInOrder` | engine/src/exchange.cpp:199-233 | Each seed rests behind those before it. |
| `Venues.SeedsQuote` | engine/src/exchange.cpp:195-249 | A seeded book quotes 0.99 and 1.01 of the price, in steps of 0.01 of it, with 500 down to 100 units and 1500 a side, all of the liquidity provider; the recorded trade is at the price. |
| `Venues.SeedIdsRest` | engine/src/exchange.cpp:204-233 | Its index knows the ids that rest and no others. |
| `Venues.ProcessingKeeps` | engine/src/exchange.cpp:313-320 | Processing any order keeps a book orderly, and both orders of each trade of a limit order can be found again. |
| `Venues.CancelingKeeps` | engine/src/exchange.cpp:326-332 | Cancelling any id keeps a book orderly. |
| `Listings.RestingIsIndexed` | engine/src/order_book.cpp:130-166 | An id rests in the queues of a valid book object exactly if the index has a resting order under it; any other order in the index is filled. |
| `Listings.ObjectIsOrderly` | engine/src/order_book.cpp:107-378 | A valid, uncrossed book object stands for an orderly venue. |
| `Listings.Submit` | engine/src/order_book.cpp:505-535 | On the objects, the matching engine makes of a venue, index included, exactly what `Processed` makes of its value, with the same trades. |
| `Listings.Withdraw` | engine/src/order_book.cpp:537-539 | Cancelling on the objects is `AfterCancel` of the value, and succeeds exactly if the order was resting. |
| `Exchanges.Exchange.AddInstrument` | engine/src/exchange.cpp:172-252 | The new book is empty, or seeded and its index holds just the seeds' ids; the last trade is the seed's; every other book is untouched, and all are orderly. |
| `Exchanges.Exchange.ProcessTrade` | engine/src/exchange.cpp:537-565 | Every account is left as the delivery of the trade says. |
| `Floors.ActMoves` | engine/src/exchange.cpp:313-320 | Any action on the floor moves the totals by twice the legs without a counterpart, and each position by twice what it has traded under known orders. |
| `Floors.LimitArrivalDoubles` | engine/src/exchange.cpp:313-320 | A limit order moves every member's position by twice the net quantity traded. |
| `Floors.MarketArrivalMoves` | engine/src/exchange.cpp:313-320 | A market order moves the totals of quantity and capital by twice what its missing legs leave over; each is conserved exactly when the deliveries balance (capital of a sale at positive prices), which, unless it meets the member's own orders, is when every made-up id is known. |
| `Positions.LimitArrivalPositions` | engine/src/exchange.cpp:313-320 | A limit order moves its actor's position by twice what it takes, up for a buy and down for a sale, and each maker's the other way by twice what it takes from that maker, and no position in another instrument; only what a sale takes from its own actor counts as bought. |
| `Positions.LimitArrivalSettles` | engine/src/exchange.cpp:313-320 | The side it meets loses what it takes, the rest of it rests, its id becomes known, and no other book changes. |
| `Positions.MarketArrivalPositions` | engine/src/exchange.cpp:313-320 | A market order moves each maker's position by twice what it takes from that maker; its own actor's only by what is booked under made-up ids that happen to be known and, for a sale, by what it takes from its own orders. |
| `Positions.MarketArrivalSettles` | engine/src/exchange.cpp:313-320 | The side it meets loses what it takes; its own side, the known ids and the other books stay. |
| `Floors.NoticesName` | engine/src/exchange.cpp:263-275 | A rejection's notice names the order and its actor on the order's own side and nobody on the other, a cancellation's (lines 352-361) always on the buying side; both are of zero quantity. |
| `Floors.RunMoves` | engine/src/exchange.cpp:254-373 | Over any run of permitted actions, market orders included, with the known ids coming and going, the totals move by twice the legs without a counterpart, each judged by what its book knew at the time, and every position by twice what it traded under known orders. |
| `Floors.RunConserves` | engine/src/exchange.cpp:254-373 | Over any run an instrument's total quantity, and capital, are conserved exactly when the legs without a counterpart cancel out; over a run of members' limit orders and cancellations exactly when no member has traded the instrument with itself, and, at positive prices, when none has at all. |
| `Floors.LimitRunLegs` | engine/src/exchange.cpp:254-373 | In a run of members' limit orders and cancellations the only legs without a counterpart are those of self-trades, and everything traded is booked. |
| `Floors.LimitRunDoubles` | engine/src/exchange.cpp:254-373 | Over such a run every position moves by twice what its holder has traded. |
| `Exchanges.DeliveredOneByOne` | engine/src/exchange.cpp:544-564 | Delivering trades to one account after the other is delivering them to all. |
| `Exchanges.LatestIsLast` | engine/src/exchange.cpp:537-539 | After trades in an instrument its last trade is the last of them. |
| `Exchanges.LatestStays` | engine/src/exchange.cpp:537-539 | Without any, it is what it was. |
| `Exchanges.Exchange.ProcessOrderSubmission` | engine/src/exchange.cpp:254-324 | An action on the floor: when trading is closed or the instrument unknown, a notice of zero quantity and nothing else; otherwise the book takes the step of the specification, each trade reaches the accounts twice, and the last trade is recorded. |
| `Exchanges.Exchange.ProcessOrderCancellation` | engine/src/exchange.cpp:326-373 | Succeeds exactly if some book has the order resting; a withdrawal from the books tried, the found one the only one that had it, and then a notice to the one account. |
| `Exchanges.Exchange.WithdrawOrder` | engine/src/exchange.cpp:326-332 | The loop over the books ends at the first that has the order resting; the books tried forget its id. |
| `Exchanges.Exchange.CloseTradingSession` | engine/src/exchange.cpp:468-482 | Leaves every book empty, on both sides and in the index. |
| `Venues.CancelAll` | engine/src/exchange.cpp:473-477 | Removing every known order empties a book. |
| `EventQueue.InsertKeepsOrder` | engine/src/engine.hpp:67-86 | An event with a new id goes to its place by timestamp, then id. |
| `EventQueue.StepIsSoundIff` | engine/src/engine.cpp:100-135 | Processing an event keeps the order of events and leaves none in the past exactly when its handler schedules nothing before the clock. |
| `EventQueue.StepSchedules` | engine/src/engine.cpp:100-135 | Processing an event takes it off the queue, moves the clock to it if it is later, and adds exactly the events its handler asks for, under consecutive ids, due so long after the clock. |
| `EventQueue.RunKeepsSound` | engine/src/engine.cpp:60-135 | Over any run the trace is strictly increasing in (timestamp, id), the clock never goes back and stands at the last event, and no pending event is in the past. |
| `EventQueue.TiesAreFirstComeFirstServed` | engine/src/engine.hpp:67-73 | Events for one time are processed in the order they were constructed. |
| `EventQueue.LateEventsBreakTheOrder` | engine/src/engine.hpp:37-41 | An event scheduled any time before the clock is processed out of order, and the clock stays. |
| `EventQueue.NothingIsLost` | engine/src/engine.cpp:54-58 | Over any run each event constructed is processed exactly once or still pending exactly once. |
| `EventRuns.PausesAreLong` | engine/src/actor.cpp:281-284 | The pauses are a draw times one second (market maker) and times five seconds (trend follower, in the same file at lines 746-749), cut to whole nanoseconds; every draw makes a decision wait at least 800 000 000 ns and 4 500 000 000 ns. |
| `EventRuns.StepLeavesLess` | engine/src/actor.cpp:268-285 | Each event processed before the end leaves less work: decisions that still fit before the end, then orders, then market data. |
| `EventRuns.RunTerminates` | engine/src/engine.cpp:60-76 | Whatever handlers that keep to these rules do, a run stops after finitely many events. |
| `EventRuns.MixIsThrifty` | engine/src/actor.cpp:275-285 | Any mix of market makers and trend followers, on any draws and whatever orders and market data they schedule besides, keeps to the rules with a pause of 800 000 000 ns. |
| `EventRuns.MixRunTerminates` | engine/src/engine.cpp:60-76 | So every run of such actors stops, and one that starts with a decision pending stops with the clock at its end or later. |
| `EventRuns.RespondingSchedules` | engine/src/actor.cpp:275-285 | A decision adds to the queue what else it asks for and the actor's next decision, due its own pause after the clock; an order arriving adds what it asks for; market data adds nothing. |
| `EventRuns.DecisionsStay` | engine/src/actor.cpp:275-285 | Over any run of such actors the number of pending decisions stays what it was. |
| `EventRuns.RunIsComplete` | engine/src/engine.cpp:60-76 | A finished run has processed every event due before the end, and at most its last event is due later. |
| `EventRuns.NoPauseNeverStops` | engine/src/actor.cpp:43-65 | One actor that decides again at once keeps a run from ever stopping. |
| `Engine.VirtualClock.AdvanceTo` | engine/src/engine.hpp:37-41 | The clock moves to the time, but never back. |
| `Engine.DueIsUnique` | engine/src/engine.cpp:121-124 | The only multiple of the interval within one interval after the clock is the next call. |
| `Engine.DueWhenIntervalBegins` | engine/src/engine.cpp:116-118 | A callback is due exactly when a new interval has begun since the clock last stood still. |
| `Engine.CatchingUp` | engine/src/engine.cpp:116-126 | Catching up keeps the next call at the first multiple of the interval after the clock, and the calls at no more than the intervals elapsed. |
| `Engine.RegisteredOnSchedule` | engine/src/engine.cpp:163-172 | A callback is registered for one interval later. |
| `Engine.SimulationEngine.CallBack` | engine/src/engine.cpp:116-126 | The catch-up loop ends for a positive interval; the callback runs once if it is due, however many intervals have passed. |
| `Engine.SimulationEngine.AddPeriodicCallback` | engine/src/engine.cpp:163-172 | Adds a callback that is on schedule and leaves the others alone. |
| `Engine.SimulationEngine.ScheduleEvent` | engine/src/engine.cpp:54-58 | Queues an event under the next id; order and clock stay sound if it is not in the past. |
| `Engine.SimulationEngine.ProcessNextEvent` | engine/src/engine.cpp:100-135 | False exactly on an empty queue; otherwise one step of the machine, and each callback runs exactly if a new interval of its own has begun. |
| `Engine.SimulationEngine.RunUntil` | engine/src/engine.cpp:60-76 | Terminates, having processed exactly as many events as it takes: the first after which the clock has reached the end, or all. |
| `Engine.SimulationEngine.RunFor` | engine/src/engine.cpp:78-80 | The same, counted from the current clock. |
| `Engine.SimulationEngine.RunUntilCondition` | engine/src/engine.cpp:82-98 | Stops at the first state in which the condition holds or no event is left. |
| `Engine.SimulationEngine.Initialize` | engine/src/engine.cpp:24-48 | Clock, queue and callbacks start afresh; ids go on. |
| `Latency.NeverNegativeIff` | engine/src/exchange.cpp:23-41 | For any base latency but zero, any jitter and any congestion, no draw makes an order's latency negative exactly when base minus jitter, times the congestion factor, is above -1 or, with a negative jitter, base plus jitter, times the factor, is at least -1 (the draw that would reach it is excluded). |
| `Latency.NeverLateIff` | engine/src/exchange.cpp:34-37 | No draw makes the delay of market data, which is what events are scheduled by, negative exactly under the same condition with -2 for -1: halving hides one nanosecond more. |
| `Latency.AroundTheBound` | engine/src/exchange.cpp:23-41 | Without congestion, a jitter one above the base gives a negative order latency and no late market data; two above gives late market data. |
| `Latency.LatencyIs` | engine/src/exchange.cpp:23-32 | A latency is the base plus the drawn part of the jitter, times the congestion, cut towards zero to whole nanoseconds. |
| `Publishing.PublishedIsPromptIff` | engine/src/exchange.cpp:515-533 | Whatever is drawn for whichever subscribers, nothing published is late exactly when the latency model is absent or meets that condition. |
| `Publishing.PublishingSchedules` | engine/src/exchange.cpp:515-533 | Publishing adds one market data event for each subscriber, due after half the order latency of that subscriber's draw, cut towards zero: half the base without jitter and congestion, at once without a model. |
| `Publishing.PublishedMayBeScheduled` | engine/src/exchange.cpp:515-533 | What such a model publishes is what the rules for terminating runs allow orders and decisions to schedule. |
| `Publishing.PublishingKeepsOrderIff` | engine/src/exchange.cpp:515-533 | An event that publishes keeps the event queue sound exactly when none of its draws gives a negative delay. |
| `Publishing.LatePublishingBreaksTheOrder` | engine/src/exchange.cpp:515-533 | Base 10, jitter 12, draw -1: market data published at 10 is due at 9, is processed out of order, and the clock stays at 10. |
| `ClockSync.SampleIsClose` | orchestrator/clock_sync.go:142-158 | An offset computed from one sample errs by at most half the round trip up, and half of it, rounded up, plus the master's round trip down. |
| `ClockSync.BoundIsTight` | orchestrator/clock_sync.go:142-158 | Both ends are reached, for every pair of round trips. |
| `ClockSync.MedianOfThree` | orchestrator/clock_sync.go:166-172 | The median of three lies between any two of them. |
| `ClockSync.MedianOfTwo` | orchestrator/clock_sync.go:166-172 | Of two values the median is the upper one. |
| `ClockSync.SecondIsQuick` | orchestrator/clock_sync.go:117-126 | If two samples are quick, so are the two quickest that are kept. |
| `ClockSync.SettledIsClose` | orchestrator/clock_sync.go:117-172 | The offset settled on keeps the error bound of the second-shortest round trip, however bad the other samples are. |
| `ClockSynchronizers.ClockSynchronizer.SynchronizeClocks` | orchestrator/clock_sync.go:58-180 | Succeeds exactly if there is a master and every answer comes; an error leaves all offsets alone; otherwise each polled id gets the median of its best samples and all other ids keep theirs. |
| `ClockSynchronizers.Grouped` | orchestrator/clock_sync.go:140-158 | The offsets of the kept samples, by node and in order. |
| `ClockSynchronizers.Quickest` | orchestrator/clock_sync.go:117-126 | The three samples with the shortest round trips. |
| `ClockSynchronizers.MedianOf` | orchestrator/clock_sync.go:166-172 | The middle one of the sorted offsets. |
| `ClockSynchronizers.Ask` | orchestrator/clock_sync.go:86-115 | All samples of a node, or an error at the first failure. |
| `ClockSynchronizers.SynchronizedIsClose` | orchestrator/clock_sync.go:58-180 | After a synchronisation each node's offset is as close as its second-shortest round trip allows. |
| `ClockSynchronizers.SynchronizedKeepsOrder` | orchestrator/clock_sync.go:183-189 | Adjusted timestamps of two nodes are ordered as their events whenever the events are further apart than the two bounds, the master's round trip counting once. |
| `ClockSynchronizers.MasterKeepsOrder` | orchestrator/clock_sync.go:183-189 | The master's timestamps are not adjusted, and those of a polled node compare with them as the events happened, either way round, whenever the events are further apart than the node's bound on that side. |
| `ClockSynchronizers.ClockSynchronizer.AdjustTimestamp` | orchestrator/clock_sync.go:183-189 | Adds the node's offset; a timestamp from a node without one is returned as it is. |
| `Drift.SharpCauchySchwarz` | orchestrator/clock_sync.go:298-312 | With the first time at zero, the squared sum of n times is at most n - 1 times the sum of their squares. |
| `Drift.GuardIsExact` | orchestrator/clock_sync.go:314-318 | The slope's denominator is positive exactly when the guard holds, and zero otherwise. |
| `Drift.SlopeIsTheRate` | orchestrator/clock_sync.go:314-318 | Offsets that are affine in time give their rate back. |
| `Drift.SlopeIsLeastSquares` | orchestrator/clock_sync.go:293-318 | The slope belongs to the line with the least squared error; any other rate does worse by at least the spread times the squared difference. |
| `DriftCompensators.GuardIffTimePasses` | orchestrator/clock_sync.go:301-318 | The guard holds exactly when not all points were recorded at one time. |
| `DriftCompensators.SteadyRateIsFound` | orchestrator/clock_sync.go:288-319 | From ten or more points of a steadily drifting clock that are not all simultaneous, the true rate is computed. |
| `DriftCompensators.RateIsKept` | orchestrator/clock_sync.go:289-318 | With fewer than ten points, or with all at one time, the rate stays as it is. |
| `DriftCompensators.NewestAreKept` | orchestrator/clock_sync.go:274-279 | However many points are recorded, the history is the newest hundred of all of them, in order. |
| `DriftCompensators.NewestCounts` | orchestrator/clock_sync.go:343-356 | For any history and rate: at the time of recording, the compensated offset is the newest master time less local time, and later it differs from that by the rate times the seconds since, cut towards zero. |
| `DriftCompensators.CompensationIsExact` | orchestrator/clock_sync.go:343-356 | For such a clock the compensated offset is less than one nanosecond off, at any time. |
| `DriftCompensators.DriftCompensator.RecordSyncPoint` | orchestrator/clock_sync.go:261-285 | The history is the last hundred points, and the rate is refitted from ten points on. |
| `DriftCompensators.DriftCompensator.CalculateDriftRate` | orchestrator/clock_sync.go:288-319 | The loop's sums give the slope, and the rate is kept when the guard fails. |
| `DriftCompensators.DriftCompensator.CompensateForDrift` | orchestrator/clock_sync.go:322-329 | The exact adjustment, cut towards zero to a whole nanosecond. |
| `DriftCompensators.DriftCompensator.GetCompensatedOffset` | orchestrator/clock_sync.go:343-356 | Zero without points; otherwise within one nanosecond of the newest point's offset plus the rate in force times the seconds since it, and that offset itself at its own time. |
| `Trend.PushedIsLast` | engine/src/actor.cpp:587-596 | Trimming at every price leaves what trimming once at the end would. |
| `Trend.TrimmingKeepsSignalIff` | engine/src/actor.cpp:589-596 | Trimming to twice the long window keeps the signal of every history exactly when the short window is no longer than that. |
| `Trend.SignalIsCrossover` | engine/src/actor.cpp:761-779 | With a positive last price the signal has the sign of the short average's lead over the long one. |
| `Trend.SignalIsScaled` | engine/src/actor.cpp:752-780 | No signal with fewer prices than the long window; otherwise twenty times the short average's lead, relative to the newest price (or absolute if that is zero), or the nearer end of the range if that is beyond it. |
| `Trend.SignalOfRising` | engine/src/actor.cpp:752-780 | A positive, non-falling history gives no sell signal, and a buy signal exactly if it has risen within the long window. |
| `Trend.SignalOfFalling` | engine/src/actor.cpp:752-780 | The mirror image for a history that does not rise. |
| `Trend.Clamped` | engine/src/actor.cpp:776-777 | The signal stays between -1 and 1 and keeps its sign. |
| `TrendFollowers.TrendFollower.OnMarketObservation` | engine/src/actor.cpp:581-598 | A mid price is recorded when both sides have one; what is kept is always the newest prices, twice the long window of them. |
| `TrendFollowers.TrendFollower.CalculateTrendSignal` | engine/src/actor.cpp:752-780 | The signal of the kept prices, which is that of the whole untrimmed history if the short window fits. |
| `TrendFollowers.CalculateSimpleMovingAverage` | engine/src/actor.cpp:782-794 | The loop computes the average of the newest prices, or zero without enough of them. |

## Left out

- PriceLevels.PriceLevel.Fill: a repair. `PriceLevel::orders()` is const (engine/src/order_book.hpp:153), yet the loops erase through it, and they never update the level's id index or volume; the model's mutator keeps both, and stands for what the loops are meant to do.
- OrderBooks.OrderBook.AddOrder: asks that an id in the index be that of a filled order; the code would overwrite the index entry of a live order and lose it (`RegisteredWithIff`). It also asks that an order at price zero meets no level at price zero, which the code would replace (`Matching.CodedAddIsPlaceIff`). Quantities are positive, because a level holding an empty order would make `execute` throw. Levels are created when absent, since `PriceLevel` has no default constructor for `map[price]`.
- PriceLevels.PriceLevel.AddOrder: asks for an id the level does not have, for the same reason.
- OrderBooks.MatchingEngine.SubmitLimitOrder: asks what `OrderBook.AddOrder` asks.
- OrderBooks.MatchingEngine.ProcessOrder: asks of a limit order what `OrderBook.AddOrder` asks, and of an order to be rejected that the book does not know that very object, whose status would change.
- Floors.RunConserves: the part on self-trades is about runs of limit orders and cancellations in which every resting order is a member's; the liquidity provider of the seeds counts as one. With market orders in the run, conservation is put in terms of the legs without a counterpart.
- Exchanges.Exchange.ProcessOrderSubmission: asks what `OrderBook.AddOrder` asks of the order and the book. The exchange works on the values of the specification machine; `Listings` proves that the book objects do the same, but the exchange object does not hold them. Observers (market data broadcasts) and the `active_orders_` of the actors are not modelled.
- Engine.SimulationEngine.RunUntil: handlers are a function of the events processed so far, restricted to what `MixIsThrifty` shows of market makers and trend followers; without a pause a run need not stop (`NoPauseNeverStops`). Callbacks are counted, not run; one that scheduled an event would block on the engine's own lock.
- Engine.SimulationEngine.AddPeriodicCallback: asks for a positive interval; with another one the code's catch-up loop does not end.
- Engine.SimulationEngine.RunUntilCondition: asks that the condition or an empty queue is reached, as nothing else stops that loop.
- Engine.SimulationEngine.RunFor: asks what `RunUntil` asks.
- Engine.SimulationEngine.Initialize: actors, exchanges and the configuration map are not part of the engine object here.
- Latency.NeverNegativeIff: asks for a base latency other than zero, by which the code divides.
- Latency.NeverLateIff: asks the same.
- ClockSynchronizers.MasterKeepsOrder: the master must not have been polled under its id; if it was, before it became the master or as another node's id, the code keeps adjusting by the old offset.
- ClockSynchronizers.SynchronizedKeepsOrder: speaks of the nodes that `SynchronizedIsClose` speaks of.
- ClockSynchronizers.SynchronizedIsClose: speaks of a node whose id no other polled node has; the samples of nodes that share an id are pooled, as `SynchronizeClocks` states.
- TrendFollowers.CalculateSimpleMovingAverage: asks for a window other than zero, by which the code divides.
- TrendFollowers.TrendFollower.CalculateTrendSignal: asks for a positive long window and a short window other than zero, by which the code divides. The slightly stricter size condition before the signal is used (engine/src/actor.cpp:604) is not modelled.
- Floating-point rounding, and the 64-bit widths of timestamps and ids.
- `modify_order`: its setters are commented out and its clone forgets what has been executed.
- Stop, stop-limit, iceberg, fill-or-kill and good-till orders, which the matching rejects or ignores; time in force.
- Trade ids and timestamps, fees (computed, never charged), random draws, value at risk, checkpoints.
- Locks, threads and re-entrant observers.
- The repeated method bodies in engine/src/exchange.hpp:201-305; engine/src/exchange.cpp is followed.
- High-frequency and retail actors, market-event generators and option pricing.
- The gRPC, ZeroMQ, WebSocket, Kubernetes, configuration and binding layers.
