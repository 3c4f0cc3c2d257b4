# Verified model of the THORChain exchange and liquidity pools

This project models, in Dafny 4.11, the limit-order exchange (`x/exchange`) and the continuous-liquidity
pools (`x/clp`) of THORChain, on the bank ledger that both share, and proves what every order, every
expiry sweep, every pool operation and every interleaving of them keeps.

The exchange has two kinds of step. Processing an order screens it, matches it against the opposite
book in a loop that edits the stored orders in place, and rests and locks what stays open. The
begin-block sweep refunds expired orders of all books. Escrow is implicit: a resting sell is backed by
its amount, a resting buy by amount times price, and the coins simply leave and re-enter accounts.
A pool's creation mints the whole supply of a token into the pool account; a trade runs one or two legs
against pools and ignores whether its sends succeed.

## How it is laid out

| file | content |
|---|---|
| `Options.dfy`, `Seqs.dfy`, `MapSums.dfy` | optional values; small facts about sequences; sums over maps, independent of the order of visiting |
| `Bank.dfy` | coins, balances, totals per denomination, the `Ledger` class |
| `Orders.dfy` | orders, escrow, the match decision, weights that can be summed over orders |
| `Books.dfy` | store keys, price-time priority, sorted insertion, the `OrderBook` class with its two loops |
| `Matching.dfy` | the match on values: which orders are consumed, exhaustiveness, limit prices, optimality |
| `Settlement.dfy` | the match with its transfers on the ledger |
| `Exchange.dfy` | the state machine (processing, sweep) and its invariant `Valid` |
| `Processing.dfy`, `Sweeping.dfy`, `Splitting.dfy`, `Messages.dfy` | what each step guarantees |
| `Pairing.dfy` | the two books of a market are stored together, and what that means for refused orders |
| `Keeper.dfy` | the `ExchangeKeeper` class; its loops are proved to compute the state machine |
| `Clp.dfy` | pools, trades, what they move, the `ClpKeeper` class |
| `FullReserve.dfy` | the linear formula of pools with reserve ratio 100: paid and unpaid trades, round trips |
| `System.dfy` | whole runs of orders, sweeps, pool creations and trades on one ledger |
| `Origins.dfy` | every order that a run touches was placed in it, on the terms it still has |
| `Accounts.dfy` | what a run does to one account, and between whom executions take place |
| `App.dfy` | both keeper classes on one ledger; their entry points are proved to perform the steps of a run |

Each class method ends in the state that a function on values names (`Snapshot() == ...`), and the
properties are lemmas about those functions. `Weight` is a table of quantities (escrow in a denomination,
open amount or locked coins or count of one order number, coins owed to an account) so that one flow
lemma per step serves conservation, lifetime accounting and uniqueness of numbers alike.

## Assumptions

- Bank operations: `SubtractCoins` fails without change exactly when the balance is insufficient,
  `AddCoins` of a non-negative amount succeeds, `SendCoins` subtracts and then adds. Amounts, order
  numbers and times are unbounded integers.
- `now` is an input of every step, and the store iterator may visit the books in any order (`keys`).
- The store is a map from the key string that the code builds to the book written under it, so two
  markets whose keys collide share an entry here as they do in the store. The safety results need no
  restriction on denominations; where colons matter the lemma says so.
- Results are at keeper level: what the surrounding application rolls back after an error stays visible.
- The coins a pool emits are any non-negative function of the pool, its base balance, the amount paid
  and the direction; for reserve ratio 100 they are the exact rounded quotient where a lemma asks for it.

## What turned out to be conditional

- A reachable state never lets a refused or panicking order change a balance or a book, whatever the denominations
  (`System.ReachableRefusals`): the two books of a market are always stored together, so an order cannot execute and
  then be refused. In a valid state without that pairing or with the counter never set, it leaves no trace exactly when
  it executed nothing (`Pairing.RefusalLeavesNoTrace`).
- Passing the checks is not enough to be accepted when denominations contain colons, because two markets can share
  their keys: a validated order can panic (`Messages.CollidingMarketsPanic`) or be refused by the book stored under its
  key (`Messages.CollidingMarketsRefuse`). An order that passes the checks is accepted if and only if the opposite book
  is that of its own market; with colon-free denominations it always is (`System.ReachableChecksDecide`).
- Circulation equals genesis plus the recorded supply if and only if at most one creation of that ticker was accepted
  (`System.WholeSystemSupply`). Only the empty ticker can break that: it escapes the existence check and can be created
  twice (`Clp.EmptyTickerMintsTwice`).
- A ratio-100 sale is paid exactly when a bound on the amount sold holds (`FullReserve.SaleIsPaid`), and a purchase
  delivers its tokens exactly when another one does (`FullReserve.BuyIsPaid`); `FullReserve.UnpaidSale` and
  `FullReserve.UnpaidPurchase` are inputs that fail them. The supply theorem establishes the first bound in reachable
  states for tokens without genesis coins.
- The supply in the formula never changes, so buying from a ratio-100 pool and selling back can be profitable:
  `FullReserve.RoundTrip` says exactly when, and `FullReserve.RoundTripGains` is an input.
- A bridged trade returns the sender's base coins to where they were exactly under the condition in
  `Clp.BridgedTrade`: when the first pool cannot cover its emission the second leg still charges a sender that has the
  coins (`FullReserve.UncoveredBridge`).
- The comment in `RemoveFilledLimitOrders` speaks of expired orders (`x/exchange/order_book.go:103`); the
  code drops filled ones, and so does the model.

## Model

| member | source | states |
|---|---|---|
| Bank.TotalSent | x/exchange/keeper.go:200-205 | a send changes no total, also when it fails and when sender and receiver are the same account |
| Bank.BalanceWithinTotal | x/clp/keeper.go:169-174 | no account holds more of a denomination than its total |
| Bank.Ledger.SubtractCoins | x/exchange/keeper.go:243-246 | fails exactly on insufficient balance and then changes nothing; otherwise debits exactly the coins |
| Bank.Ledger.SendCoins | x/exchange/keeper.go:202-205 | succeeds exactly when covered; moves the coins or changes nothing |
| Orders.FillTakesItsShare | x/exchange/keeper.go:177-181 | a partial fill removes exactly its own share of the order's escrow, amount and locked coins |
| Books.KeyInSubspace | x/exchange/order_book.go:34-36 | every book key lies in the swept subspace and none is the key of the order counter |
| Books.KeyFixesKind | x/exchange/order_book.go:34-36 | a key always determines the kind, so a book and its opposite never share one |
| Books.KeyInjective | x/exchange/order_book.go:34-36 | for colon-free denominations two keys are equal exactly when kind and both denominations are |
| Books.KeyCollides | x/exchange/order_book.go:34-36 | with colons two different markets have the same key |
| Books.InPriorityAt | x/exchange/order_book.go:116-128 | in a book in priority order every earlier position has a strictly better price, or the same price and a smaller number |
| Books.InsertIsStable | x/exchange/order_book.go:61-95 | insertion keeps the old orders in their order, adds exactly the new one, behind every price at least as good and before every strictly worse price |
| Books.InsertKeepsPriority | x/exchange/order_book.go:66-94 | inserting the youngest order keeps price-time priority |
| Books.OrderBook.AddLimitOrder | x/exchange/order_book.go:46-95 | accepts exactly orders of the book's kind and denominations; the shifting loop over a fresh array performs the sorted insertion; a refusal changes nothing |
| Books.OrderBook.RemoveFilledLimitOrders | x/exchange/order_book.go:98-113 | keeps exactly the orders with a non-zero amount, in order |
| Matching.MatchShape | x/exchange/keeper.go:138-182 | fills are a prefix of the book in order, all but the last consume their order, each is positive and at an acceptable stored price, filled plus open is the request |
| Matching.MatchRest | x/exchange/keeper.go:180-186 | the book afterwards is the orders past the fills, preceded by the unconsumed part of the last filled one |
| Matching.MatchExhausts | x/exchange/keeper.go:144-149 | if anything stays open, the book left over is empty or its best price is unacceptable |
| Matching.MatchFillsDepth | x/exchange/keeper.go:138-182 | the filled total is the smaller of the request and everything on offer at acceptable prices anywhere in the sorted book |
| Matching.MatchFlow | x/exchange/keeper.go:177-186 | escrow, open amount and locked coins of the book drop by exactly those of the fills |
| Matching.RestInPriority | x/exchange/keeper.go:180-186 | reducing and removing matched orders keeps price-time priority |
| Matching.MatchHonoursLimit | x/exchange/limit_order.go:88-98 | the executed value is at most volume times limit for a buyer and at least that for a seller |
| Matching.GreedyIsOptimal | x/exchange/keeper.go:138-182 | among all ways to take the same quantity from the stored orders, a buyer's fills cost least and a seller's fills earn most |
| Settlement.FundsSurviveFill | x/exchange/keeper.go:93-102 | with funds for the whole order every execution can be paid, and afterwards the funds for the rest are still there, also in a self-trade |
| Settlement.SettleFunded | x/exchange/keeper.go:93-182 | with the up-front funds no transfer of the loop fails, the loop performs exactly the match, and the open part can still be covered |
| Settlement.SettleBalance | x/exchange/keeper.go:151-175 | every account changes by exactly what the fills pay and release to it, with taker and maker possibly the same |
| Settlement.SettleTotal | x/exchange/keeper.go:169-181 | accounts in total gain exactly the escrow that the fills release |
| Exchange.NumbersDistinct | x/exchange/keeper.go:276-286 | in a valid state two resting orders with the same number are the same order in the same place of the same book |
| Processing.FundsSuffice | x/exchange/keeper.go:93-114 | an order that passes the checks runs the loop without a failed transfer and can cover its final lock |
| Processing.ProcessKeepsValid | x/exchange/keeper.go:64-251 | every order, accepted, refused or panicking, keeps books well formed, sorted, uniquely numbered and uncrossed |
| Processing.OpenPartIsApart | x/exchange/keeper.go:104-111 | what the opposite book still offers is out of the request's reach, so resting the open part cannot cross it |
| Processing.ProcessConserves | x/exchange/keeper.go:64-251 | accounts plus implied escrow of every denomination are unchanged by any order, including self-trades and refusals |
| Processing.ProcessFlow | x/exchange/keeper.go:64-251 | escrow, open amount and locked coins over all books change by what rested minus what was filled |
| Processing.AcceptedExactlyWhen | x/exchange/keeper.go:64-117 | from a valid state, exactly when an order is accepted and exactly when it panics, in terms of the request, the sender's balance, the books, the counter and the eligible depth before the call |
| Processing.ChecksRefuse | x/exchange/keeper.go:68-101 | which error each check returns, in order, on the request and the sender's balance, and that a failed check leaves the whole state as it was |
| Processing.AdmissibleRefuses | x/exchange/keeper.go:104-234 | what becomes of an order past the checks that is not accepted: panic, unset counter or foreign book, and which of these uses up a number |
| Processing.AcceptedPerformsMatch | x/exchange/keeper.go:104-116 | an accepted order performs exactly the match, leaves the matched book as computed and advances the counter by one |
| Processing.AcceptedReports | x/exchange/keeper.go:175-188 | position by position the reports name the first orders of the opposite book with their prices and exactly the amounts these orders lose, and reported and open amounts add up to the request |
| Processing.AcceptedRests | x/exchange/keeper.go:213-251 | all other books are untouched; the own book gains exactly the open part with its number, sender, price and expiry at its sorted place, or nothing |
| Processing.ProcessBalance | x/exchange/keeper.go:151-175 | the exact effect on every account and denomination: each maker is paid at its own stored price, the taker receives the released escrow, the open part is locked |
| Processing.BuyLimitHonoured | x/exchange/keeper.go:155-171 | a buyer receives exactly the filled amount, and outlay plus lock stay within amount times price |
| Processing.SellLimitHonoured | x/exchange/keeper.go:161-171 | a seller is credited at least filled times price and gives up at most the amount |
| Sweeping.SweepIsExact | x/exchange/keeper.go:297-342 | the sweep refunds exactly the resting orders with an expiry before now, each once, and keeps exactly the others in priority order |
| Sweeping.SweepBalance | x/exchange/keeper.go:330-341 | every account receives exactly what its own expired orders had locked, in whatever order the store is iterated |
| Sweeping.SweepKeepsValid | x/exchange/keeper.go:288-342 | the sweep preserves every book invariant |
| Sweeping.SweepConserves | x/exchange/keeper.go:288-342 | accounts plus implied escrow of every denomination are unchanged by a sweep |
| Sweeping.SweepFlow | x/exchange/keeper.go:304-341 | every weight of the books drops by exactly that of the refunded orders |
| Sweeping.SweepIsIdempotent | x/exchange/keeper.go:288-342 | a second sweep at the same time changes nothing and refunds nothing |
| Pairing.OneOwner | x/exchange/keeper.go:184-186 | the two keys of a market are both taken, by books of one market, or both free |
| Pairing.ProcessKeepsPaired | x/exchange/keeper.go:184-248 | every order keeps that: the opposite book is always written back, and the first order of a market always rests |
| Pairing.OwnerDecides | x/exchange/keeper.go:93-114 | with paired books and a set counter, acceptance and panics are decided by the checks and by whose book is stored on the other side, and an order that is not accepted changes no balance and no book |
| Pairing.RefusalLeavesNoTrace | x/exchange/keeper.go:104-114 | in any valid state a refused order leaves all balances and resting orders untouched exactly when it executed nothing, and what an execution before a refusal requires; with paired books and a set counter it never executes and changes no balance and no book |
| Splitting.MatchSplits | x/exchange/keeper.go:138-188 | matching a part and then the rest against what is left gives the book, the open amount and the gains of matching the sum |
| Splitting.SplittingIsInvisible | x/exchange/keeper.go:104-116 | if an order is accepted then so are its two parts one after the other, with the same opposite book, the same balances for everyone, the same total open amount, and the same own book with the open parts side by side in place of the whole's |
| Messages.LessIsLexicographic | x/exchange/msg_create_limit_order.go:70 | the comparison of denominations puts a proper prefix first and otherwise goes by the first difference |
| Messages.ValidatesExactly | x/exchange/msg_create_limit_order.go:60-83 | exactly when a message passes, with the direction that is accepted, and which error it gets otherwise |
| Messages.DeliversExactly | x/exchange/handler.go:25-30 | a message that fails validation changes nothing and gets its error; any other is processed |
| Messages.OneDirectionPerMarket | x/exchange/msg_create_limit_order.go:60-83 | of the two directions of a pair exactly one passes validation |
| Messages.NeverBothDirections | x/exchange/msg_create_limit_order.go:69-72 | no two stored books hold the two directions of one pair |
| Messages.ChecksDecide | x/exchange/keeper.go:68-91 | with colon-free denominations the checks alone decide acceptance, nothing panics, and a refused order changes nothing, the counter included |
| Messages.CollidingMarketsPanic | x/exchange/limit_order.go:69-76 | two validated orders with colons in their denominations after which the second one panics |
| Messages.CollidingMarketsRefuse | x/exchange/order_book.go:46-59 | after the same first order, a validated and funded sell of the second market is refused by the book under its own key |
| Keeper.ExchangeKeeper.InitGenesis | x/exchange/genesis.go:24-29 | starts valid with the given counter and no books |
| Keeper.ExchangeKeeper.GetOrderBook | x/exchange/keeper.go:34-48 | a working copy of the book stored under the market's key, or of a new empty one |
| Keeper.ExchangeKeeper.GetNewOrderID | x/exchange/keeper.go:276-286 | returns the counter and advances it by one, or fails without change when it was never set |
| Keeper.ExchangeKeeper.SendAndUnlockCoins | x/exchange/keeper.go:200-209 | pays and unlocks, or changes nothing when the payment is not covered |
| Keeper.ExchangeKeeper.MatchRound | x/exchange/keeper.go:144-181 | one round: panics only on a foreign book, stops without change or executes, pays and reduces the stored order in place, always on course for the whole match |
| Keeper.ExchangeKeeper.MatchLoop | x/exchange/keeper.go:138-182 | the loop computes the settled match: balances, open amount, reports and, once cleaned up, the rest of the book; it panics exactly on a non-empty foreign book, before any transfer |
| Keeper.ExchangeKeeper.FillOrderIfPossible | x/exchange/keeper.go:120-189 | ends in the state after the match with the cleaned-up book written back, and reports each fill with its number, amount and price; a panic changes nothing |
| Keeper.ExchangeKeeper.StoreUnfilledLimitOrder | x/exchange/keeper.go:213-251 | computes exactly the storing step, with each of its refusals |
| Keeper.ExchangeKeeper.ProcessLimitOrder | x/exchange/keeper.go:64-117 | computes exactly the processing step with its outcome, and keeps the keeper valid |
| Keeper.ExchangeKeeper.RefundExpiredLimitOrders | x/exchange/keeper.go:288-342 | computes the sweep for the order in which the store was iterated, keeps the keeper valid and never panics |
| Clp.AddressInjective | x/clp/types/clp.go:36-38 | pool addresses are equal exactly when the tickers are |
| Clp.CreateStores | x/clp/keeper.go:61-95 | exactly when a creation takes effect, that it then stores the data of its message field by field and keeps every other record, and that it changes nothing otherwise |
| Clp.CreateRefuses | x/clp/keeper.go:63-84 | which error a creation returns, in the order of the checks |
| Clp.CreateSupply | x/clp/keeper.go:63-95 | what creation mints of each denomination, and that it keeps coins minus recorded supply exactly unless it accepts the empty ticker again |
| Clp.EmptyTickerMintsTwice | x/clp/keeper.go:52-58 | the empty ticker can be created twice, after which more of its coins circulate than are recorded |
| Clp.TradeMovesOnly | x/clp/keeper.go:163-197 | whatever the emission and whichever sends fail, a trade leaves every total unchanged |
| Clp.BridgedTrade | x/clp/keeper.go:186-196 | exactly when a token-to-token trade leaves the sender's base coins unchanged, in terms of the first pool's emission and the balances before, and that a covered emission passes in full from the first pool to the second |
| Clp.BridgedReceipt | x/clp/keeper.go:186-196 | a bridged trade reports the emissions of the two pools, the second at the base balance it has by then, and a sender that is neither pool receives exactly what is reported when the second pool owns it |
| Clp.TradeRefuses | x/clp/keeper.go:130-197 | exactly when a trade is refused and with which error, from its arguments, the stored pools and the balances before it |
| Clp.TradeMoves | x/clp/keeper.go:130-197 | every trade, direct, bridged, unpaid or refused in its second leg, changes each balance by exactly what its arguments, the emissions and the balances before it say |
| FullReserve.UncoveredBridge | x/clp/keeper.go:157-196 | an input on which the first pool pays nothing and the sender is charged ten base coins |
| FullReserve.FormulaIsNearest | x/clp/keeper.go:98-102 | for ratio 100 the result is the nearest integer to the exact value |
| FullReserve.FormulaBound | x/clp/keeper.go:98-102 | exactly when that result stays within the factor; it does when no more than the denominator is paid |
| FullReserve.SaleIsPaid | x/clp/keeper.go:115-158 | exactly when a ratio-100 sale is paid out, and what the seller then holds |
| FullReserve.BuyIsPaid | x/clp/keeper.go:115-158 | exactly when the tokens of a ratio-100 purchase arrive, and what buyer and pool then hold; the payment is made in any case |
| FullReserve.UnpaidPurchase | x/clp/keeper.go:157-158 | an input on which a purchase reports ten tokens, delivers none and keeps the payment |
| FullReserve.RoundTrip | x/clp/keeper.go:98-127 | buying and selling everything back restores the tokens, and exactly when the sender ends with more base coins than before |
| FullReserve.RoundTripGains | x/clp/keeper.go:98-127 | an input on which 50 base coins buy 50 tokens that sell for 75 |
| FullReserve.UnpaidSale | x/clp/keeper.go:157-158 | an input on which a sale reports ten base coins, pays none and keeps the sold tokens |
| Clp.ClpKeeper.Create | x/clp/keeper.go:61-95 | computes exactly creation with its refusals in order and keeps the pools well formed |
| Clp.ClpKeeper.ProcessCLPTrade | x/clp/keeper.go:130-160 | computes exactly one leg, ignoring the results of its sends |
| Clp.ClpKeeper.Trade | x/clp/keeper.go:163-197 | computes exactly a one- or two-leg trade with its refusals |
| System.NextKeepsInv | x/exchange/keeper.go:64-342 | orders, sweeps, creations and trades all keep the invariant of the whole chain |
| System.ReachableBooks | x/exchange/order_book.go:44-128 | in every reachable state orders match their book, are positive, numbered below the counter and uniquely, stand in price-time priority, never cross, and no pair has both directions |
| System.WholeSystemSupply | x/clp/keeper.go:61-95 | after any run the coins of every denomination, in accounts and in escrow, are the genesis coins plus what all accepted creations of it minted; that is the initial supply of the pool of that name exactly when at most one creation was accepted, which always holds for non-empty tickers; every pool's current supply is its initial supply |
| System.StoredPoolsWereCreated | x/clp/keeper.go:61-95 | in every reachable state each stored pool has, field by field, the data of a creation that was accepted where it stands in the run |
| System.ReachableRefusals | x/exchange/keeper.go:68-114 | in every reachable state and for all denominations: an order that is not accepted leaves every balance and every book as it was, and exactly when an order is accepted and exactly when it panics, on the request, the balances and the opposite book |
| System.OrderLifetime | x/exchange/keeper.go:177-341 | over any run, per order number: amount rested is filled plus open plus refunded, coins locked are released plus locked plus refunded, rested at most once, refunded at most once and not while still resting |
| Origins.RunStems | x/exchange/keeper.go:120-346 | over any run, whatever is filled, refunded or left resting is part of an order that rested at the start or came to rest on the way |
| Origins.OrdersKeepTheirTerms | x/exchange/keeper.go:177-346 | from genesis, every filled, refunded or resting order is part of exactly one placed order, the one with its number, and has the sender, kind, price, denomination and expiry of an order whose message was valid and unexpired |
| System.ReachableChecksDecide | x/exchange/keeper.go:68-91 | in runs with colon-free denominations the checks alone decide acceptance, no order panics, and a refused order does not use up a number |
| System.ReachableSaleIsPaid | x/clp/keeper.go:115-184 | in every reachable state a sale of a token without genesis coins to its ratio-100 pool is within the pool's base balance and paid in full |
| Accounts.WealthAccounted | x/exchange/keeper.go:151-346 | over any run, an account's coins together with what its resting orders keep locked change by exactly what its executions are worth to it and what creations and trades move to it by their messages |
| Accounts.MakersTradeAtTheirPrice | x/exchange/keeper.go:138-182 | every execution of a run from genesis is between two valid orders placed in it, the maker's before the taker's, on the two sides of one market: it takes a positive part of what the maker asked for, at exactly the maker's price, which the taker's limit accepts, and is worth that trade to the two of them and nothing to anybody else |
| Accounts.BystandersUntouched | x/exchange/keeper.go:64-346 | an account that places no order has its balances changed by pool operations only, and without them not at all |
| App.ThorchainApp.DeliverLimitOrder | x/exchange/handler.go:25-30 | message validation and processing on the shared ledger end in the next state of the system model |
| App.ThorchainApp.BeginBlocker | x/exchange/begin_blocker.go:8-10 | the sweep on the shared ledger ends in the next state for the order in which the store was iterated |
| App.ThorchainApp.DeliverCreate | x/clp/handler.go:27-35 | pool creation on the shared ledger ends in the next state, with the refusal of the model |
| App.ThorchainApp.DeliverTrade | x/clp/handler.go:38-45 | a trade on the shared ledger ends in the next state and reports the amounts of the model |

## Left out

- Real-exponent formula and float64 rounding for reserve ratios below 100: the emission is an arbitrary non-negative function there.
- Buys from a pool without base coins: the formula divides by zero; the exact-emission assumption skips this case.
- `CalculateCLPPrice`: only used for display.
- Overflow of 64-bit and big integers, and the conversions between them.
- Genesis export: it only writes the next order number (`x/exchange/genesis.go:32-38`).
- `hasOrderSenderEnoughCoins`: not called.
- The application's rollback of a failed or panicking transaction: all results hold without it.
- Kinds other than buy and sell are one constructor with a code; no store key is built for them, because every path checks the kind first.
- Steps of other modules (plain transfers, fees, staking, slashing): a run interleaves only the steps of these two modules.
- Client commands, REST queries, message signing, codecs, gas and logging.
- The SDK's bank module is not part of this model beyond the contract listed under Assumptions.
