# Verified model of the TradeOff exchange core

This project models the core of a crypto exchange backend in Dafny and proves what that core is for: orders meet
in price priority, funds locked for an order are there when its trade settles, the ledger explains every balance,
and nothing is created or lost. `dafny verify dfyconfig.toml` checks all of it.

## How it is laid out

The matching engine is modelled twice. `EngineModel` says what `process_order` and `cancel_order` do as functions on
two priority sequences, the stop queues and the pending stops. `BookSides`, `StopBooks`, `OrderBooks`, `Engine` and
`StopCascade` are the objects the source is written with: price levels with a queue and a running total, a price map
beside a sorted price list filled by binary insertion, an index by id, and the loops that pop, fill and put back
makers. Every method there is proved to do to the view of those objects exactly what `EngineModel` says.

The exchange around it is modelled the same way. `Wallets` and `ExchangeModel` are functions on values: reserving,
releasing, settling, and one step for each of ten calls. `WalletService` and `Trading` are the wallet objects (two of
a trade's four wallets are the same object when a user trades with himself) and the endpoints over one pair's engine.

| files | what they hold |
|---|---|
| `Orders`, `Priority`, `Sums` | orders, priority sequences, sums and products of reals |
| `Matching`, `TimePriority` | matching as recursion over one side, why no other way of filling is better, and when orders keep their turns |
| `Levels`, `Preflight` | price levels against the flat sequence; the fill-or-kill preflight |
| `EngineModel`, `EngineProofs` | one call on the engine |
| `Runs`, `RunTheorems`, `Statuses`, `StopFates` | every run of one engine: submissions, deliveries of triggered stops and cancels in any order; what statuses tell, what becomes of stops |
| `BookSides`, `StopBooks`, `OrderBooks`, `Engine`, `StopCascade` | the engine's objects and loops |
| `Wallets`, `PairRules`, `CopySizing`, `ExchangeModel` | wallets, ledger, what a pair accepts, copy-order sizing, stored rows and the ten calls |
| `Matches`, `Agreement`, `Filing` | one match seen from the exchange; stored rows against the books, in every run |
| `StoredOrders`, `StoredTrades` | what is stored of orders, of followers' copies and of trades, in every run |
| `Calls` | what each call is refused for and what it does to the wallets, without the model's own tests |
| `Accounting`, `ExchangeProofs`, `Boundaries` | the exact account of locked funds, solvency in every run, and exactly which calls keep it |
| `LedgerProofs`, `Amounts`, `Statements`, `Folding`, `Drift` | ledger and totals: in every admissible run, in every run whatever, and what one tolerated shortfall makes of them; who is paid |
| `BuyResidues`, `OrderFates`, `Withdrawals` | what buys and orders leave locked; the life of withdrawals and deposits |
| `Examples` | runs from a fresh exchange at which documented properties fail |
| `WalletService`, `Trading` | the wallet objects and the endpoints |
| `Candles`, `Ladder` | one-minute candles, the liquidity ladder |

## The main result

From an exchange with no orders and nothing locked, after any run of limit orders with the copies their followers place,
market orders, cancels, deposits and withdrawals, each wallet's `locked` is exactly

- what its owner's live limit orders hold: price x unfilled x (1 + taker fee) for a buy, the unfilled base for a sell;
- plus its live withdrawals;
- plus the residue of its buys: what their limits had locked for a fill beyond what the fill cost at the maker's price
  and fee. For a base asset there is no residue.

It follows that the 409 answers of settlement and of `complete_withdrawal` cannot be given, and that no settlement is
clamped: every one in such a run finds both reserves locked (`Folding.AdmissibleCovered`). The proof needs the engine's
price guarantees, the agreement of stored rows with the book and the wallet arithmetic together.

Two kinds of call break the account: a market sell that spends a budget beyond the quantity it reserved, and a cancel of
a market order whose rest was released before. `ExchangeProofs.Admissible` names them by what can be read off before the
call. `Boundaries.RunsKeptExactly` proves that the condition is exact: from a fresh exchange, every call of a run keeps
the account, a single-sided ledger and every asset's total if and only if every call is admissible. `Examples` has a run
for each of the two that ends in a 409.

Nothing returns the residue of a buy: it stays locked in every admissible run from there on
(`BuyResidues.ResiduesForGood`). A trade leaves one if and only if its buyer took the fill below the price its funds
were locked at, or rested and the maker's fee is below the taker's (`BuyResidues.StoredResidue`); a limit buy's own
fills leave one if and only if it is not killed and the best ask is below its limit (`BuyResidues.LimitResidue`).

What does not depend on solvency is proved without it. Resting orders agree with their rows, leave their book only
filled or cancelled, and finished rows never change, in every run in which no call is answered with a violated
invariant. And in every run, admissible or not, no wallet goes negative and nothing is lost: what is created of an asset
is at most 1e-6 of what the trades moved of it and 1e-12 a trade, folding the ledger rebuilds `available`, and it
rebuilds `locked` up to at most what was created (`Folding.EveryRunFolds`). It rebuilds both exactly if and only if
every settlement found the seller's base locked, and every total is explained if and only if every settlement found both
reserves locked (`Folding.LedgerRebuildsExactly`, `Folding.TotalsKeptExactly`).

Who is paid is said without naming the settlement: an accepted one pays the base to the buyer and what is left of the
quote after the seller's own fee to the seller, takes both costs out of what is locked, and touches no other balance
(`Statements.SettlePays`). Over any run a
wallet's entries of each kind add up to what the stored trades, deposits and withdrawals say, and its `available` is its
opening plus what it bought, sold for and deposited, less what it asked to withdraw, but for reserves and what was given
back (`Folding.EveryRunPays`); stored trades are between the users, at the prices and with the fees their orders say
(`StoredTrades.StoredTradesTell`). Rows and engine orders tell by their status what has become of them
(`StoredOrders.StoredOrdersTell`, `Statuses.StatusesTell`), a triggered stop becomes what it was placed as
(`StopFates.StopLimitHonoured`, `StopFates.StopMarketNeverRests`), and `Calls` says of every call exactly when it is
refused.

A limit order's row carries one field the database does not have, `hidden`: what the order has locked beyond its open
rest. That is the part of an iceberg that the engine drops, whose funds stay locked, and the rest of a finished order
until the endpoint releases it.

## Reading the model

- `Decimal` is `real`; a division such as `quote_remaining / match_price` is exact.
- A price, budget, stop price, iceberg peak or last price of 0.0 stands for `None`; the source only tests these for
  truth or for being positive.
- An API call is one step. Order, deposit and withdrawal ids are positions in their tables, so a new id is fresh.
- Products go through `Sums.Mul` and `Sums.Div`, which proofs hide unless they need a law of multiplication.

## Where the code and its documentation part

- Price-time priority is by last enqueue: a partly filled maker is popped and put back at the tail of its price's queue
  (`engine.py:174-176`, `263-264`). A match keeps the makers' turns if and only if it does not end strictly inside a
  maker at whose price someone else waits (`TimePriority.TurnsByQuantity`, `TimePriority.TurnsByBudget`; an input is in
  `TimePriority.TurnLost`).
- An iceberg shows its peak once. What it did not show is dropped from its quantity (`engine.py:277-281`) and never
  shown, unless its peak covers what crossing depth leaves of it (`EngineProofs.IcebergLosesHidden`,
  `EngineProofs.IcebergExample`). Its funds stay locked even after a cancel, for good (`OrderFates.HeldForGood`,
  `Examples.IcebergKeepsLocked`).
- A buy filled below its limit is not given back the difference (`trading.py:369-372` releases at the limit price what
  is not filled, which is nothing). It stays locked for good (`BuyResidues.LimitResidue`,
  `BuyResidues.ResiduesForGood`, `Examples.FilledBuyKeepsLocked`, `Examples.CancelledBuyKeepsLocked`).
- A partly filled immediate-or-cancel order keeps the status PARTIALLY_FILLED (`engine.py:285-288`), so its remaining
  reserve is not released until someone cancels it (`Examples.IocKeepsLocked`).
- So an immediate-or-cancel order leaves nothing locked if and only if the other side offers it nothing within its
  limit, or all of it and, to a buy, nothing below its limit (`OrderFates.IocLeavesNothing`). An order that may rest,
  cancelled at once, leaves nothing locked if and only if it is no iceberg or its peak covers what crossing depth leaves
  of it, and the best ask is not below a buy's limit (`OrderFates.CancelledLeavesNothing`).
- Placing a stop does not compare it with the last price (`RunTheorems.StopPlacementUnchecked`,
  `RunTheorems.StopPlacementExample`), and cancelling one does not remove it (`RunTheorems.CancelMissesStops`,
  `RunTheorems.CancelStopExample`).
- A market order that ended partly filled can still be cancelled, and its rest is then released twice: the account
  survives a cancel if and only if the order is a limit order or asks for nothing (`Boundaries.CancelBreaks`,
  `Boundaries.AdmissibleExactly`, `Examples.CancelTakesOthers`).
- A market sell may carry a quote budget next to its quantity. The engine goes on selling beyond the quantity that was
  reserved if and only if the bids are deeper than the quantity and the budget exceeds what their first units are worth
  (`EngineProofs.FillsBeyondQuantity`), and exactly then the account breaks (`Boundaries.SellKeptExactly`,
  `Examples.BudgetTakesOthers`).
- A clamped settlement logs the seller's whole quantity (`wallet_service.py:187`), so the ledger then no longer
  rebuilds the wallet (`Drift.ClampUnlogged`, `Folding.LedgerRebuildsExactly`). Cancels that release twice lead there
  (`Examples.ClampLosesLedger`).
- A trade stored when a candle of its minute or a later one stands is never counted, whatever runs follow
  (`Candles.LateTradeLost`, `Candles.LateTradeExample`).

## Model

| member | source | states |
|---|---|---|
| `ExchangeProofs.Solvent` | `backend/app/api/v1/trading.py:270-374` | In every run of admissible calls from a fresh exchange (limit orders and their followers' copies, market orders, cancels, deposits, withdrawals), each wallet's `locked` is exactly what its live orders hold, its live withdrawals are due and its buys left behind; the next admissible call meets no 409 |
| `Boundaries.RunsKeptExactly` | `backend/app/api/v1/trading.py:270-374` | Exactly those runs: from a fresh exchange every call keeps the account, a single-sided ledger and the total of every asset if and only if no market sell in the run spends a budget beyond its reserve and no cancel of a market order asks for its rest again |
| `Boundaries.AdmissibleExactly` | `backend/app/api/v1/trading.py:270-374` | The same for one call at any exchange whose account is exact and whose ledger is in order |
| `Boundaries.SellKeptExactly` | `backend/app/api/v1/trading.py:274-336` | A market sell whose reserve succeeds is done, creates nothing and keeps the account if and only if the bids go no deeper than its quantity or its budget is at most what the first `quantity` units of the bids are worth |
| `Boundaries.OversellBreaks` | `backend/app/api/v1/trading.py:274-336` | A market sell that goes on to spend its budget leaves the seller's locked base short of what it owes, or has created base; between the two, by exactly what was sold beyond the quantity |
| `Boundaries.CancelBreaks` | `backend/app/api/v1/trading.py:451-474` | A cancel of an order that is no limit order leaves what is owed as it was and takes what it asks for, as far as anything is locked, out of funds locked for something else, logging exactly that |
| `Examples.BudgetTakesOthers` | `backend/app/api/v1/trading.py:274-336` | From a fresh exchange: an ask, a bid, a market sell with quantity and budget that sells the coins reserved for the ask, and then the fill of the ask is answered with a violated invariant |
| `Examples.CancelTakesOthers` | `backend/app/api/v1/trading.py:451-474` | From a fresh exchange: a bid, a market sell of up to one coin more than the bid takes, an ask, the cancel of the market sell, and then the fill of the ask is answered with a violated invariant if and only if the excess is beyond the settlement's tolerance |
| `ExchangeProofs.StepInv` | `backend/app/api/v1/trading.py:270-374` | One admissible call of any of the ten kinds keeps that account exact and is never answered with a violated invariant |
| `Filing.StoredOrdersAgree` | `backend/app/api/v1/trading.py:114-166` | In every run in which no call is answered with a violated invariant, each resting order has a stored row with the same owner, side, price, quantity, fill and live status, and no book is crossed |
| `StoredOrders.StoredOrdersTell` | `backend/app/api/v1/trading.py:98-166` | In every run from a fresh exchange a stored order is open and untouched, partly filled and just that, filled exactly when nothing of it is left, or cancelled; a stored limit order's price is within 1e-8 of a whole number of ticks and its size, with what an iceberg hid of it, within the limits, 1e-8 of a whole number of steps and the minimum worth |
| `StoredOrders.RestingOrdersTell` | `backend/app/api/v1/trading.py:162-166` | In every run an order on a book is stored as open exactly while nothing of it is filled, and as partly filled exactly from its first fill on |
| `StoredOrders.LimitStored` | `backend/app/api/v1/trading.py:339-374` | A placed limit order is stored with its user, terms and size, filled by min(quantity, what crosses its limit), or not at all as a fill-or-kill order that reaches too little; its status says which, and what an iceberg hides is what is left beyond its peak |
| `StoredOrders.MarketStored` | `backend/app/api/v1/trading.py:270-336` | A market sell is stored at the size asked for, filled by min(quantity, depth) and with the status that says so; a quote-funded buy at the size it executed, as filled |
| `StoredOrders.FollowersStored` | `backend/app/services/copy_trading_service.py:82-177` | The rows a placed limit order adds after its own are of followers in active relations with its user, at its side and price and at the size copy sizing finds for the relation |
| `StoredOrders.CopiesInTurn` | `backend/app/services/copy_trading_service.py:105-177` | Every relation has its turn, and adds a copy exactly when it is active and the leader's, copy sizing finds a size, and the follower then has that much base available, or its cost with the taker fee; the copy fills what the book then offers within the leader's limit and time in force |
| `Calls.LimitRefused` | `backend/app/api/v1/trading.py:339-360` | A limit order is refused if and only if its pair is unknown, price or quantity is not positive, the size is outside the limits or further than 1e-8 from every multiple of the step, the price further than 1e-8 from every multiple of the tick, the worth below the minimum, or the user has less available than the price x quantity x (1 + taker fee) of a buy, the quantity of a sell |
| `Calls.MarketRefused` | `backend/app/api/v1/trading.py:270-304` | A market order is refused if and only if its pair is unknown, a buy has no budget or a sell no size, a size given breaks the pair's rules, the other side of the book is empty, or the user has less available than the budget x (1 + taker fee) of a buy, the quantity of a sell |
| `Calls.CancelDoes` | `backend/app/api/v1/trading.py:451-474` | A cancel is refused if and only if the order is not the user's or no longer open, pending or partly filled; otherwise the row is cancelled, the order leaves its book, and what its rest costs or sells, no more than is locked, goes back to available in the user's own wallet and nowhere else |
| `Calls.UndoneSame` | `backend/app/api/v1/trading.py:270-474` | A call that is refused or meets a violated invariant changes nothing |
| `LedgerProofs.LedgerRebuilds` | `backend/app/services/wallet_service.py:30-54` | In every admissible run folding the ledger by entry type rebuilds both columns of every wallet, nothing is overdrawn, every entry is single-sided, and a wallet's latest entry carries its balance |
| `LedgerProofs.AssetsConserved` | `backend/app/services/wallet_service.py:156-182` | In every admissible run what users hold of an asset plus all fees kept equals what they opened with plus completed deposits less completed withdrawals |
| `Folding.EveryRunFolds` | `backend/app/services/wallet_service.py:30-188` | In every run from a fresh exchange, admissible or not, no wallet goes negative, nothing is lost, what is created of an asset is at most 1e-6 of what the stored trades moved of it plus 1e-12 a trade, folding the ledger rebuilds `available`, `locked` is ahead of the fold by at most what was created, and a wallet's latest entry carries its balance |
| `Folding.EveryRunPays` | `backend/app/services/wallet_service.py:30-188` | In every run from a fresh exchange, admissible or not, a wallet's trade entries add up to the base its user bought and sold in the stored trades and to what he sold it for less his own fees, its deposit entries to his completed deposits and its withdrawal entries to what he asked for and to what was paid out; its `available` is the opening plus what these tables pay it, but for what orders reserve and what is given back |
| `Folding.StepPays` | `backend/app/api/v1/trading.py:142-166` | Every call at every exchange adds to a wallet's `available` what its user buys and sells in the trades the call stores and the deposit of his it completes, less the withdrawal he asks for, and beyond that only what it reserves for orders and gives back |
| `Statements.SettlePays` | `backend/app/services/wallet_service.py:156-182` | An accepted settlement adds the quantity to the buyer's available base and the quote less the seller's own fee to the seller's available quote, takes the cost with the buyer's own fee and the quantity, as far as they are there, out of what the two have locked, and changes no other balance |
| `Statements.SettleAnswers` | `backend/app/services/wallet_service.py:145-171` | A settlement is refused for the buyer exactly when he has less locked than the cost with his fee, beyond 1e-6 of it and 1e-12, and for the seller exactly when the buyer has enough and the seller falls short of the quantity by more than that |
| `Statements.FoldKinds` | `backend/app/services/wallet_service.py:30-54` | Both columns of a wallet are the signed sums of its entries of each kind |
| `Folding.VersionsCount` | `backend/app/services/wallet_service.py:181-182` | In every run from a fresh exchange a wallet's version has gone up by one for each of its ledger entries |
| `StoredTrades.StoredTradesTell` | `backend/app/api/v1/trading.py:142-161` | In every run from a fresh exchange a stored trade names its two orders and their users, on opposite sides of its pair; it is at the maker's limit, no worse than a limit the taker has, worth price x quantity, and charges the taker the taker fee and the maker the maker fee of it |
| `Folding.AdmissibleCovered` | `backend/app/services/wallet_service.py:149-182` | In an admissible run from a fresh exchange no call is answered with a violated invariant and every settlement finds both reserves locked, so neither `min` cuts anything |
| `Amounts.RunProper` | `backend/app/api/v1/trading.py:142-161` | In every run, admissible or not, every stored trade moves a positive quantity, costs and pays something positive after its fees, and every stored deposit and withdrawal is of a positive amount |
| `Folding.LedgerRebuildsExactly` | `backend/app/services/wallet_service.py:149-188` | After any run from a fresh exchange the fold rebuilds both columns of every wallet if and only if every settlement of the run, copies' included, found the seller's base locked |
| `Folding.TotalsKeptExactly` | `backend/app/services/wallet_service.py:149-188` | After any run from a fresh exchange the total of every asset is explained by deposits, withdrawals and fees if and only if every settlement of the run found both reserves locked |
| `Folding.StepFolds` | `backend/app/api/v1/trading.py:270-474` | The same for one call of any kind at any exchange, solvent or not: it keeps the ledger, or the totals, if and only if its settlements are covered |
| `Folding.SettleFolds` | `backend/app/services/wallet_service.py:149-188` | One accepted settlement, wherever it happens, loses nothing, explains `available`, lets `locked` run ahead by no more than it creates, and keeps the ledger, or the totals, if and only if the reserves cover it |
| `Filing.LeavesBook` | `backend/app/api/v1/trading.py:162-166` | A call not answered with a violated invariant takes a resting order off its book only by filling it to the last, and then its row is filled in full, or by its owner's cancel, and then its row is cancelled |
| `Filing.StoredFinalForever` | `backend/app/api/v1/trading.py:162-166` | Once a stored order is filled, cancelled, rejected or expired its row never changes again in any run in which no call is answered with a violated invariant |
| `OrderFates.QuoteBuySettles` | `backend/app/api/v1/trading.py:295-329` | A quote-funded market buy spends min(budget, worth of the ask side), is stored with quantity = filled = what its trades bought, and leaves nothing of its own locked in any wallet |
| `OrderFates.IocLeavesNothing` | `backend/app/core/matching_engine/engine.py:266-291` | An accepted immediate-or-cancel order leaves nothing locked in any wallet, by its row or by any trade in which it bought, if and only if the crossing depth of the other side is nothing or at least its quantity, and the best ask is not below a buy's limit |
| `OrderFates.IocHolds` | `backend/app/core/matching_engine/engine.py:266-291` | Its row alone holds nothing if and only if that depth is nothing or at least its quantity |
| `OrderFates.FokLeavesNothing` | `backend/app/core/matching_engine/engine.py:304-326` | A fill-or-kill order leaves nothing locked if and only if the crossing depth is below its quantity or the best ask is not below a buy's limit |
| `OrderFates.CancelledLeavesNothing` | `backend/app/core/matching_engine/engine.py:275-284` | An order that may rest, cancelled at once, leaves nothing locked, by its row or by any trade in which it bought, if and only if it is no iceberg or its peak covers what crossing depth leaves of it, and the best ask is not below a buy's limit; the cancel is accepted if and only if something is left |
| `OrderFates.HeldForGood` | `backend/app/api/v1/trading.py:451-474` | What a finished order's row still holds it holds after every admissible run, and its wallet has at least that locked |
| `BuyResidues.ResidueExactly` | `backend/app/services/wallet_service.py:149-188` | A trade fair to both rows leaves nothing locked in any wallet if and only if a buying taker's funds were locked at the price it traded at, or, for a resting buyer, the two fees are equal |
| `BuyResidues.StoredResidue` | `backend/app/api/v1/trading.py:142-166` | The same for every stored trade of an exchange whose account is exact, as every admissible run leaves it |
| `BuyResidues.LimitResidue` | `backend/app/api/v1/trading.py:339-374` | The fills of a placed limit order leave something locked if and only if it buys, is not killed, and the best ask is below its limit |
| `BuyResidues.ResiduesForGood` | `backend/app/services/wallet_service.py:97-135` | What stored trades have left locked they leave locked after every admissible run, trade for trade, and the wallet has at least all of it locked |
| `Examples.FilledBuyKeepsLocked` | `backend/app/api/v1/trading.py:369-372` | From a fresh exchange: one coin for sale at one, an immediate-or-cancel buy of one at two, reached and filled in full; in every admissible run from there one stays locked |
| `Examples.CancelledBuyKeepsLocked` | `backend/app/api/v1/trading.py:451-474` | The same buy of two, good till cancelled, half filled and cancelled: no iceberg, and one stays locked |
| `Examples.IocKeepsLocked` | `backend/app/core/matching_engine/engine.py:285-288` | From a fresh exchange: one coin for sale, an immediate-or-cancel buy of two; the call is done and its row still holds funds |
| `Examples.IcebergKeepsLocked` | `backend/app/core/matching_engine/engine.py:275-284` | From a fresh exchange: an iceberg of ten with a peak of three, placed and cancelled; in every admissible run from there seven stay locked |
| `RunTheorems.NeverCrossed` | `backend/app/core/matching_engine/engine.py:214-284` | In every run of one engine, whatever comes between the deliveries of triggered stops, best bid stays below best ask and both sides stay in priority order |
| `RunTheorems.FillsConserved` | `backend/app/core/matching_engine/engine.py:161-176` | In every run no order is filled beyond its quantity, a quantity-funded order's fill is the sum of its trades, and whatever is on the book is live with something left |
| `RunTheorems.TerminalIsFinal` | `backend/app/core/matching_engine/engine.py:266-291` | Once an order is filled, cancelled, rejected or expired it is on no book, keeps its exact value and takes part in no later trade |
| `RunTheorems.CascadeDelivers` | `backend/app/api/v1/trading.py:194-246` | A cascade that nothing interrupts ends with nothing pending and delivers each triggered stop exactly once: stops before equal stops delivered plus stops still waiting, as multisets |
| `RunTheorems.CascadeIsRun` | `backend/app/api/v1/trading.py:194-246` | Such a cascade is a run of deliveries, each of the first stop pending |
| `RunTheorems.StopsConserved` | `backend/app/api/v1/trading.py:194-246` | In every run, with submissions, copies and cancels anywhere between the deliveries and deliveries in any order, the stops accepted are those delivered, those triggered and pending and those still waiting, and none is delivered twice |
| `RunTheorems.DeliveredWereTriggered` | `backend/app/core/matching_engine/order_book.py:249-265` | In every run a stop becomes pending, and so is delivered, only after some trade went through its stop price |
| `RunTheorems.CheckStopsQuiet` | `backend/app/core/matching_engine/order_book.py:249-265` | After a stop check no waiting stop is triggered by the last price |
| `RunTheorems.TriggeredInTurn` | `backend/app/core/matching_engine/order_book.py:249-265` | In every run the stops one more order sets off join the pending list behind those there, sells before buys, sells from the lowest stop price up and buys from the highest down, in the order they waited |
| `RunTheorems.StopsQueueUp` | `backend/app/core/matching_engine/order_book.py:147-152` | A new stop waits behind every stop of its side at its own stop price |
| `StopFates.StopLimitHonoured` | `backend/app/api/v1/trading.py:220-232` | In every run a stop-limit order is a limit order at its own limit from its delivery on, and no trade it takes part in is worse than that limit |
| `StopFates.StopMarketNeverRests` | `backend/app/api/v1/trading.py:220-232` | In every run a stop-market order is never on a book |
| `StopFates.StopLimitDelivered` | `backend/app/api/v1/trading.py:220-232` | Delivered, a stop-limit order trades min(quantity, what crosses its limit), all or nothing if fill-or-kill; what is left of one that may rest is on its side at its limit price, as much as it shows, and any other is on no book |
| `StopFates.StopMarketDelivered` | `backend/app/api/v1/trading.py:220-232` | Delivered, a stop-market order fills min(quantity, depth) and is on no book |
| `RunTheorems.ProcessQuiet` | `backend/app/core/matching_engine/engine.py:194-198` | Processing any order but a stop keeps the stop book quiet, and any match makes it so |
| `RunTheorems.CascadeQuiet` | `backend/app/api/v1/trading.py:194-246` | A whole cascade keeps the stop book quiet |
| `RunTheorems.RunQuiet` | `backend/app/core/matching_engine/engine.py:335-341` | A quiet stop book stays quiet in any run that places no stop |
| `RunTheorems.TradesSettleStops` | `backend/app/core/matching_engine/engine.py:335-341` | After a submission that trades no waiting stop is triggered by the last price, and none is while deliveries, copies, cancels and other plain orders follow, until another stop is placed |
| `RunTheorems.StopPlacementUnchecked` | `backend/app/core/matching_engine/engine.py:328-333` | Placing a stop checks nothing: a quiet stop book stays quiet if and only if the last price does not already trigger the new stop |
| `RunTheorems.StopPlacementExample` | `backend/app/core/matching_engine/engine.py:328-333` | One coin offered and bought at 10 on an empty engine, then a stop sell at 12: it is accepted and waits, already triggered |
| `RunTheorems.CancelMissesStops` | `backend/app/core/matching_engine/engine.py:350-358` | Cancelling the id of a waiting stop leaves it waiting, to be set off by exactly the prices that would have set it off before |
| `RunTheorems.CancelStopExample` | `backend/app/core/matching_engine/engine.py:350-358` | Submitted to an empty engine and cancelled, that stop still waits, and one coin offered and bought at 11 makes it pending |
| `RunTheorems.RunSound` | `backend/app/core/matching_engine/engine.py:75-97` | Every run keeps the book sound, the stops sound and each order object as last recorded |
| `Runs.HandleSound` | `backend/app/core/matching_engine/engine.py:75-97` | Processing one order keeps all of that |
| `Runs.StopCountKept` | `backend/app/core/matching_engine/engine.py:335-341` | Processing a plain order only moves stops from the stop queues to the pending list |
| `EngineProofs.ProcessSound` | `backend/app/core/matching_engine/engine.py:75-97` | Processing any order keeps both sides ordered, uncrossed, with unique ids, live orders and positive rests |
| `EngineProofs.CancelSound` | `backend/app/core/matching_engine/engine.py:350-358` | Cancelling keeps all of that and removes exactly the order with that id |
| `EngineProofs.LimitConserves` | `backend/app/core/matching_engine/engine.py:214-284` | A limit order fills min(quantity, crossing depth); the other side loses exactly that depth, its own side gains exactly what it shows, and nothing else moves |
| `EngineProofs.IcebergLosesHidden` | `backend/app/core/matching_engine/engine.py:275-284` | Own-side depth grows by all that crossing depth leaves of the order if and only if the order is no iceberg or its peak covers that rest |
| `EngineProofs.IcebergExample` | `backend/app/core/matching_engine/engine.py:275-284` | Ten units with a peak of three, on an empty book, add three |
| `EngineProofs.LimitPrices` | `backend/app/core/matching_engine/engine.py:214-251` | Every trade is at its maker's price, in priority order, within the taker's limit, and prices only move away from the taker |
| `EngineProofs.FillOrKill` | `backend/app/core/matching_engine/engine.py:304-326` | Fill-or-kill fills the whole request exactly when what crosses the limit, or the depth, covers the quantity or, without one, the side is worth the budget; otherwise there is no trade and only the sequence number moves |
| `Statuses.StatusesTell` | `backend/app/core/matching_engine/engine.py:266-291` | In every run of one engine an open order is untouched, a partly filled one just that, an order of some quantity filled exactly when nothing of it is left; on the book an order is open exactly while its fill is zero and partly filled exactly once it is positive |
| `Statuses.LimitStatus` | `backend/app/core/matching_engine/engine.py:200-302` | A limit order fills min(quantity, what crosses its limit), all or nothing if fill-or-kill, and is filled, partly filled (also as immediate-or-cancel), open if it may rest, or cancelled by how much that is; a resting iceberg keeps its fill and its peak |
| `Statuses.MarketStatus` | `backend/app/core/matching_engine/engine.py:99-198` | A market order counts min(quantity, depth) as its fill and says filled, partly filled or cancelled by that; asked for nothing it is rejected, fill-or-kill without the depth or the worth it is cancelled untouched |
| `EngineProofs.MarketFills` | `backend/app/core/matching_engine/engine.py:121-179` | A market order funded by quantity fills min(quantity, depth); one funded by quote spends min(budget, worth); the side loses exactly the base filled |
| `EngineProofs.FillsBeyondQuantity` | `backend/app/core/matching_engine/engine.py:128-137` | A market order with a quantity fills more than that if and only if the side is deeper than the quantity and the budget exceeds what the first `quantity` units of the side are worth; otherwise the budget plays no part |
| `Matching.QuantityIsGreedy` | `backend/app/core/matching_engine/engine.py:214-264` | The makers a match touches are a prefix of the priority sequence, all but the last used up |
| `Matching.QuantityCrosses` | `backend/app/core/matching_engine/engine.py:219-227` | Every fill crosses, and a match that stops short has met the end of the side or a price that does not cross |
| `Matching.BudgetIsGreedy` | `backend/app/core/matching_engine/engine.py:131-137` | The same for a match that spends a budget |
| `Matching.QuantityFillsExactly` | `backend/app/core/matching_engine/engine.py:214-255` | A match fills exactly min(wanted, depth at crossing prices) |
| `Matching.BudgetSpendsExactly` | `backend/app/core/matching_engine/engine.py:131-165` | A budget match spends exactly min(budget, worth of the side) |
| `Matching.LeftoverKeeps` | `backend/app/core/matching_engine/engine.py:174-176` | What a match leaves is the untouched makers and at most one partly filled maker, in order |
| `Matching.LeftoverDepth` | `backend/app/core/matching_engine/engine.py:253-264` | The side's depth falls by exactly what was filled |
| `Matching.PricesMonotone` | `backend/app/core/matching_engine/engine.py:214-264` | Trade prices only get worse for the taker as a match walks the book |
| `TimePriority.TurnsKept` | `backend/app/core/matching_engine/engine.py:174-176` | A match leaves the makers that stay in their earlier order if and only if its last maker is used up or nobody else waits at that maker's price |
| `TimePriority.TurnsByQuantity` | `backend/app/core/matching_engine/engine.py:253-264` | The same said of the side and the quantity: turns are kept if and only if the quantity does not end strictly inside a maker within the limit at whose price another waits |
| `TimePriority.TurnsByBudget` | `backend/app/core/matching_engine/engine.py:131-176` | The same for a match that spends a budget |
| `TimePriority.LimitTurns` | `backend/app/core/matching_engine/engine.py:214-284` | The same for a processed limit order |
| `TimePriority.TurnLost` | `backend/app/core/matching_engine/engine.py:263-264` | Of two bids at one price the earlier, half filled, ends up behind the later |
| `Matching.BestExecution` | `backend/app/core/matching_engine/order_book.py:212-243` | No other way of taking the same quantity from the same makers costs a buyer less or earns a seller more |
| `Matching.BestBudget` | `backend/app/core/matching_engine/order_book.py:212-243` | No other way of spending at most the same gets a buyer more, and none raising as much sells less |
| `Matching.GreedyDominates` | `backend/app/core/matching_engine/order_book.py:212-243` | Against any allocation, the difference in cost is at least the last price traded times the difference in quantity |
| `Levels.EnqueueIsInsert` | `backend/app/core/matching_engine/order_book.py:111-122` | Appending to a price's queue is inserting into the priority sequence behind everything at that price or better |
| `Levels.RemoveIsWithout` | `backend/app/core/matching_engine/order_book.py:132-145` | Removing an id from its queue is removing it from the priority sequence |
| `Levels.DropEmptyPrice` | `backend/app/core/matching_engine/order_book.py:143-145` | Deleting an empty level and its listed price leaves the sequence as it was |
| `Levels.FlatOrdered` | `backend/app/core/matching_engine/order_book.py:56-59` | Strictly sorted prices over keyed queues make an ordered priority sequence |
| `Levels.FiredIsFlat` | `backend/app/core/matching_engine/order_book.py:249-265` | The stops of the triggered prices, price by price, are the triggered stops of the sequence |
| `Levels.UnfiredIsFlat` | `backend/app/core/matching_engine/order_book.py:249-265` | What is left of the stop queues is the untriggered rest of the sequence |
| `Preflight.ReachableDepth` | `backend/app/core/matching_engine/engine.py:311-321` | Adding up level totals down to a price gives the depth reachable at it, and what lies beyond a price that does not cross adds nothing |
| `Preflight.ReachableWorth` | `backend/app/core/matching_engine/engine.py:322-325` | The same for the worth of the levels |
| `Orders.EngineOrder.Fill` | `backend/app/core/matching_engine/orders.py:77-85` | Filling adds min(amount, remaining), sets the status it implies, and returns what it added |
| `Orders.EngineOrder.Cancel` | `backend/app/core/matching_engine/orders.py:87-90` | Only open, pending and partly filled orders become cancelled |
| `Orders.EngineOrder.RevealIcebergPeak` | `backend/app/core/matching_engine/orders.py:92-101` | Shows min(peak, rest), and nothing once the order is used up |
| `BookSides.PriceLevel.AddOrder` | `backend/app/core/matching_engine/order_book.py:23-25` | The order joins the back of the queue, and the total stays the sum of the rests |
| `BookSides.PriceLevel.RemoveOrder` | `backend/app/core/matching_engine/order_book.py:27-35` | Exactly the order with that id leaves, and the total stays the sum of the rests |
| `BookSides.PriceLevel.PopBest` | `backend/app/core/matching_engine/order_book.py:37-43` | The front of the queue leaves, and the total stays the sum of the rests |
| `BookSides.InsertSorted` | `backend/app/core/matching_engine/order_book.py:79-94` | Binary insertion keeps the list strictly sorted and adds exactly the new price |
| `BookSides.BookSide.Add` | `backend/app/core/matching_engine/order_book.py:111-122` | Adding an order inserts it into the side's priority sequence and keeps levels, prices and totals in agreement |
| `BookSides.BookSide.Remove` | `backend/app/core/matching_engine/order_book.py:132-145` | Removing an order takes exactly it out of the sequence and leaves no empty level |
| `BookSides.BookSide.PeekBest` | `backend/app/core/matching_engine/order_book.py:212-222` | The best order is the head of the sequence; none only if the side is empty |
| `BookSides.BookSide.PopBest` | `backend/app/core/matching_engine/order_book.py:224-243` | Popping takes the head of the sequence and leaves no empty level |
| `BookSides.BookSide.BestPrice` | `backend/app/core/matching_engine/order_book.py:156-164` | The first listed price is the price of the best order |
| `OrderBooks.OrderBook.AddOrder` | `backend/app/core/matching_engine/order_book.py:103-109` | Adds to one side, leaves the other alone, and the index stays exactly the resting orders |
| `OrderBooks.OrderBook.RemoveOrder` | `backend/app/core/matching_engine/order_book.py:124-130` | Removes from one side, leaves the other alone, and the index stays exactly the resting orders |
| `OrderBooks.OrderBook.PopBestOrder` | `backend/app/core/matching_engine/order_book.py:224-243` | Pops the best of one side, leaves the other alone, and the index stays exactly the resting orders |
| `OrderBooks.OrderBook.AddStopOrder` | `backend/app/core/matching_engine/order_book.py:147-152` | A stop joins its side's stop sequence behind everything at its stop price or triggered before it |
| `OrderBooks.OrderBook.CheckStopOrders` | `backend/app/core/matching_engine/order_book.py:249-265` | Exactly the triggered stops leave, sells before buys, each group in trigger order |
| `StopBooks.SortPrices` | `backend/app/core/matching_engine/order_book.py:254-260` | Sorting the stop prices gives exactly the prices, strictly in trigger order |
| `StopBooks.TakeFired` | `backend/app/core/matching_engine/order_book.py:254-263` | Taking the triggered queues returns exactly the triggered stops and leaves exactly the rest |
| `Engine.MatchingEngine.CanFullyFill` | `backend/app/core/matching_engine/engine.py:304-326` | The preflight loop says yes if and only if the reachable depth, or the side's worth for a budget, covers the request |
| `Engine.MatchingEngine.ExecuteFill` | `backend/app/core/matching_engine/engine.py:237-264` | One fill: the trade at the maker's price with both fees, both orders filled, and a maker with something left put back behind its price |
| `Engine.MatchingEngine.PopAndFill` | `backend/app/core/matching_engine/engine.py:122-176` | One round of the market loop is one step of the recursive matcher |
| `Engine.MatchingEngine.MatchLimit` | `backend/app/core/matching_engine/engine.py:214-264` | The limit loop does to the book, the taker and the trades exactly what the recursive matcher says |
| `Engine.MatchingEngine.MatchMarketOrder` | `backend/app/core/matching_engine/engine.py:121-179` | The market loop does exactly what the recursive matchers say, quantity first and then the budget |
| `Engine.MatchingEngine.ProcessLimitOrder` | `backend/app/core/matching_engine/engine.py:200-302` | A limit order's effect on book, stops, last price, taker and result is exactly the model's |
| `Engine.UsedIdsTell` | `backend/app/core/matching_engine/engine.py:257-258` | What a result lists as filled are exactly the makers the match filled to the last |
| `Engine.MatchingEngine.ProcessMarketOrder` | `backend/app/core/matching_engine/engine.py:99-198` | A market order's effect is exactly the model's |
| `Engine.MatchingEngine.ProcessStopOrder` | `backend/app/core/matching_engine/engine.py:328-333` | A stop joins the stop book as pending and nothing else moves |
| `Engine.MatchingEngine.ProcessOrder` | `backend/app/core/matching_engine/engine.py:75-97` | The entry point does exactly what the model says for every kind of order, expired ones included |
| `Engine.MatchingEngine.CheckStopOrders` | `backend/app/core/matching_engine/engine.py:335-341` | Triggered stops move to the end of the pending list, once anything has traded |
| `Engine.MatchingEngine.GetPendingStopOrders` | `backend/app/core/matching_engine/engine.py:343-348` | Hands over the pending list in order and empties it |
| `Engine.MatchingEngine.CancelOrder` | `backend/app/core/matching_engine/engine.py:350-358` | Found if and only if an order with that id rests; then it leaves the book and the index and is marked cancelled |
| `Engine.MatchingEngine.BestPrice` | `backend/app/core/matching_engine/engine.py:364-370` | The best price of a side is that of the head of its priority sequence |
| `Engine.MatchingEngine.constructor` | `backend/app/core/matching_engine/engine.py:59-65` | A new engine is empty |
| `StopCascade.DeliverStop` | `backend/app/api/v1/trading.py:220-232` | One triggered stop, turned into a plain order and processed, is one step of the cascade |
| `StopCascade.DeliverBatch` | `backend/app/api/v1/trading.py:200-232` | One batch, taken in order, is that many steps of the cascade |
| `StopCascade.ProcessTriggeredStops` | `backend/app/api/v1/trading.py:194-246` | Batch after batch until none comes back is exactly the first-in, first-out cascade, and terminates |
| `Accounting.SettledAccounted` | `backend/app/services/wallet_service.py:149-188` | Settling one trade moves what its taker and maker had locked for it into the wallets and the residue: the account stays exact |
| `Accounting.AccountCovers` | `backend/app/services/wallet_service.py:166-175` | An exact account covers every pending trade, so neither reserve check can refuse it and neither `min` clamps |
| `Accounting.PersistAccounted` | `backend/app/api/v1/trading.py:142-166` | A whole match is settled without a refusal and without a clamp, and the account is exact again |
| `Accounting.FairCovers` | `backend/app/services/wallet_service.py:166-167` | A buy at or below its limit, at either fee, costs no more than the limit and the taker fee had locked |
| `Agreement.FillRowsEffect` | `backend/app/api/v1/trading.py:162-166` | Booking a match changes exactly its makers' rows, each by its own trade |
| `Agreement.LeftoverBacked` | `backend/app/api/v1/trading.py:162-166` | After a match is booked every maker still on the book agrees with its row |
| `Agreement.FillsUnsettled` | `backend/app/api/v1/trading.py:142-166` | A match of backed makers gives trades that are fair to both rows and that each maker's row can still fill |
| `ExchangeProofs.PlaceLimitInv` | `backend/app/api/v1/trading.py:339-374` | Placing a limit order, with all its followers' copies, keeps the account, the books and their agreement, and no settlement is refused |
| `ExchangeProofs.EnterInv` | `backend/app/api/v1/trading.py:98-166` | Reserving, matching and persisting one limit order keeps all of that and says how it came about |
| `ExchangeProofs.CopiesInv` | `backend/app/services/copy_trading_service.py:66-177` | Any followers' copies, placed or skipped, keep all of that |
| `ExchangeProofs.PlaceMarketInv` | `backend/app/api/v1/trading.py:270-336` | The same for a market order that does not spend a budget beyond its reserve |
| `ExchangeProofs.CancelInv` | `backend/app/api/v1/trading.py:451-474` | Cancelling a limit order, or an order that asks for nothing, releases exactly what its row held, all of it still locked |
| `ExchangeProofs.DepositInv` | `backend/app/api/v1/wallets.py:114-228` | Deposits touch no locked funds |
| `ExchangeProofs.WithdrawalLocked` | `backend/app/api/v1/wallets.py:448-450` | A live withdrawal's amount is still locked in full |
| `ExchangeProofs.WithdrawalInv` | `backend/app/api/v1/wallets.py:273-474` | Every withdrawal call keeps the account, and completing one never finds too little locked |
| `ExchangeProofs.ReleaseSettles` | `backend/app/services/wallet_service.py:119-124` | Releasing what the account says is left over settles the account, and the release is never cut short |
| `LedgerProofs.TransferGaps` | `backend/app/services/wallet_service.py:174-188` | A settlement's entries explain every balance but for what the seller's debit was clamped by |
| `LedgerProofs.TransferSupply` | `backend/app/services/wallet_service.py:174-182` | A settlement takes its two fees out of the wallets and creates exactly what its debits were clamped by, also when buyer and seller are one |
| `LedgerProofs.StepWhole` | `backend/app/services/wallet_service.py:30-54` | Every admissible call keeps the ledger properties and the totals of every asset explained |
| `Drift.SettleDrifts` | `backend/app/services/wallet_service.py:142-180` | Without assuming solvency, an accepted settlement leaves nothing negative and creates in each asset at most needed x 1e-6 + 1e-12; nothing exactly when the reserve covers the debit |
| `Drift.RunDrifts` | `backend/app/services/wallet_service.py:142-180` | Any run of accepted settlements drifts by at most 1e-6 of all that moved plus 1e-12 a trade |
| `Drift.ClampUnlogged` | `backend/app/services/wallet_service.py:174-187` | After an accepted settlement the ledger still rebuilds every wallet if and only if the seller's reserve covered the quantity |
| `Examples.ClampLosesLedger` | `backend/app/services/wallet_service.py:174-188` | From a fresh exchange: the run of `CancelTakesOthers` with an excess within the tolerance; the last fill is clamped, after which the fold no longer rebuilds every wallet and something has been created |
| `WalletService.Database.GetWalletForUpdate` | `backend/app/services/wallet_service.py:14-27` | The wallet filed under the key, made empty if missing, and no other balance changes |
| `WalletService.Database.AddLedger` | `backend/app/services/wallet_service.py:30-54` | One entry is appended, carrying the wallet's balance of the moment |
| `WalletService.Database.ReserveOrderFunds` | `backend/app/services/wallet_service.py:57-94` | Moves the reserve from available to locked and logs it, or refuses for the reason the model gives and at most makes an empty wallet |
| `WalletService.Database.ReleaseOrderFunds` | `backend/app/services/wallet_service.py:97-135` | Moves back what was asked for, at most what is locked, and logs it |
| `WalletService.Database.SettleTrade` | `backend/app/services/wallet_service.py:149-188` | Settles on shared wallet objects exactly as the model settles on values, or refuses and changes no balance |
| `Trading.FollowsInv` | `backend/app/api/v1/trading.py:270-374` | An endpoint that follows the model keeps the account exact and meets no violated invariant |
| `Trading.TradingDesk.constructor` | `backend/app/api/v1/trading.py:68-78` | A new desk is a fresh exchange, with an exact account |
| `Trading.TradingDesk.PersistResult` | `backend/app/api/v1/trading.py:142-166` | The settlement loop is the model's, trade by trade, and stops at the first refusal |
| `Trading.TradingDesk.PlaceLimitOrder` | `backend/app/api/v1/trading.py:339-374` | The endpoint's whole effect, on engine, orders, trades, wallets and ledger, followers' copies included, is the model's step |
| `Trading.TradingDesk.Enter` | `backend/app/api/v1/trading.py:98-166` | Reserving, matching and persisting one limit order is the model's, and a refusal at most makes an empty wallet |
| `Trading.TradingDesk.CopyOne` | `backend/app/services/copy_trading_service.py:105-177` | One follower's copy, placed, released if it has ended, or skipped, is the model's |
| `Trading.TradingDesk.CopyAll` | `backend/app/services/copy_trading_service.py:66-177` | The loop over the relations is the model's, one follower after the other |
| `Trading.TradingDesk.PlaceMarketOrder` | `backend/app/api/v1/trading.py:270-336` | The same for market orders, funded either way |
| `Trading.TradingDesk.CancelOrder` | `backend/app/api/v1/trading.py:451-474` | The same for cancels, of any stored order |
| `Trading.Executed` | `backend/app/api/v1/trading.py:313-324` | Adding up the trades gives what the fills executed and cost |
| `Trading.TradingDesk.CreateMockDeposit` | `backend/app/api/v1/wallets.py:114-168` | Stores a pending deposit or refuses |
| `Trading.TradingDesk.ConfirmDeposit` | `backend/app/api/v1/wallets.py:171-228` | Counts confirmations and credits the wallet once, when they suffice |
| `Trading.TradingDesk.CreateWithdrawal` | `backend/app/api/v1/wallets.py:273-338` | Locks the amount and stores the request, or refuses and changes nothing |
| `Trading.TradingDesk.ApproveWithdrawal` | `backend/app/api/v1/wallets.py:341-354` | Only a requested withdrawal is approved |
| `Trading.TradingDesk.BroadcastWithdrawal` | `backend/app/api/v1/wallets.py:357-393` | Only a requested or approved withdrawal is broadcast, a large one only once approved |
| `Trading.TradingDesk.CancelWithdrawal` | `backend/app/api/v1/wallets.py:396-428` | Returns what is locked of a withdrawal not yet broadcast |
| `Trading.TradingDesk.CompleteWithdrawal` | `backend/app/api/v1/wallets.py:431-474` | Takes a broadcast withdrawal's amount out of locked, or answers that the invariant is violated |
| `Withdrawals.WithdrawalLife` | `backend/app/api/v1/wallets.py:341-453` | A call changes nothing of a withdrawal but its status, only along requested, approved, broadcast, paid out or called off before broadcast, and only the call meant to, by its owner where it has to be |
| `Withdrawals.LargeNeedApproval` | `backend/app/api/v1/wallets.py:308-308` | In every run a withdrawal of a thousand or more is broadcast or paid out only if an administrator approved it on the way |
| `Withdrawals.DepositLife` | `backend/app/api/v1/wallets.py:185-214` | A completed deposit never changes again; until then only its owner's confirmations move it, and it completes exactly when they suffice |
| `Calls.DepositDoes` | `backend/app/api/v1/wallets.py:114-168` | A deposit is refused if and only if its asset is unknown or it is below the minimum; otherwise it is stored as pending under the caller and the asset, with the confirmations the asset asks for, and no wallet changes |
| `Calls.ConfirmDoes` | `backend/app/api/v1/wallets.py:171-214` | A confirmation is refused if and only if the deposit is not the caller's; the one that brings an open deposit to its required confirmations completes it and adds its amount to available in its own wallet alone, any other changes no balance |
| `Calls.WithdrawalDoes` | `backend/app/api/v1/wallets.py:273-319` | A withdrawal is refused if and only if its asset is unknown, it is below the minimum or above a maximum there is, more than the user has available, or no more than the fee; otherwise it is stored with the fee, marked for an administrator from 1000 on, and its amount moves from available to locked in that wallet alone |
| `Calls.ApprovalDoes` | `backend/app/api/v1/wallets.py:341-393` | Approving is refused unless the withdrawal waits; sending out unless it is the caller's and approved, or waits and needs no approval; neither moves funds |
| `Calls.CallOffDoes` | `backend/app/api/v1/wallets.py:396-428` | Calling off is refused unless the withdrawal is the caller's and not sent out; what of its amount is locked goes back to available in its own wallet alone |
| `Calls.CompleteDoes` | `backend/app/api/v1/wallets.py:431-474` | Completing is refused unless the withdrawal is the caller's and sent out, and answers a violated invariant exactly when less than its amount is locked; otherwise the amount leaves its own wallet alone |
| `Calls.StoredFundsFit` | `backend/app/api/v1/wallets.py:114-338` | In every run from a fresh exchange every stored deposit reaches its asset's minimum and is completed only once confirmed as often as the asset asks, and every stored withdrawal is within its asset's minimum and maximum, worth more than its fee, and marked for an administrator exactly from 1000 on |
| `PairRules.RulesMean` | `backend/app/api/v1/trading.py:81-96` | The pair rules accept exactly the sizes between the limits and within 1e-8 of a whole number of steps, and the prices within 1e-8 of a whole number of ticks that reach the minimum worth |
| `PairRules.OnGridMeans` | `backend/app/api/v1/trading.py:85-94` | The two-sided remainder test accepts exactly what is within 1e-8 of some multiple |
| `Candles.CandleTable.Aggregate` | `backend/app/tasks/jobs.py:54-119` | The minute loop extends the table exactly as the recursive definition does and counts what it added |
| `Candles.EveryRunPartitions` | `backend/app/tasks/jobs.py:36-119` | However often the job runs while trades come in on time, candles are contiguous whole minutes, each tells its own minute, an empty one carries the close before it, and in order they count every trade before their end exactly once, with matching counts and volumes |
| `Candles.RunReaches` | `backend/app/tasks/jobs.py:32-55` | A run brings the candles up to the last minute that is over: if it adds any, the last is that minute's; if none, that one was there, or the first trade's minute is not over |
| `Candles.EmptyStands` | `backend/app/tasks/jobs.py:74-95` | An empty minute's candle stands still at the close of the one before it or, as the first of its table, at the market price, and counts nothing |
| `Candles.Partition` | `backend/app/tasks/jobs.py:56-71` | What the candles count, one after the other, is the log up to their end |
| `Candles.CandleTells` | `backend/app/tasks/jobs.py:64-95` | A candle has its minute's first, last, highest and lowest price and its sums; an empty minute stands still at the last earlier trade's price when there is one |
| `Candles.AggregateKeeps` | `backend/app/tasks/jobs.py:36-119` | A run keeps every earlier candle and extends the table to the last complete minute |
| `Candles.AggregateIdempotent` | `backend/app/tasks/jobs.py:97-103` | Running again at the same time, or an earlier one, adds nothing |
| `Candles.LateTradeLost` | `backend/app/tasks/jobs.py:42-43` | A trade put into the log after the candles reached some minute: whatever runs follow, the candles count every trade before their end if and only if it is later than that minute; otherwise, also when it is earlier than the first candle, they are the candles of a log that never had it |
| `Candles.LateTradeExample` | `backend/app/tasks/jobs.py:42-43` | A second trade of the first minute, stored after its candle, is in no candle of any next run |
| `CopySizing.CopyIsGreatest` | `backend/app/services/copy_trading_service.py:34-62` | With a step, a copy's size is the greatest positive step multiple within the allocation, position and quantity caps that meets the minimums, and there is none exactly when no multiple does |
| `CopySizing.CopyPassesRules` | `backend/app/api/v1/trading.py:81-96` | A copy passes the pair rules whenever the leader's price is on the tick grid |
| `CopySizing.FloorIsGreatest` | `backend/app/services/copy_trading_service.py:34-38` | Flooring to the step finds the greatest positive multiple within a bound |
| `Ladder.BuildLadder` | `backend/app/api/v1/demo.py:60-89` | The loop builds the twelve rungs a side of the recursive definition |
| `Ladder.BidsBelowAsks` | `backend/app/api/v1/demo.py:77-83` | Every bid is strictly below every ask, for any middle price and positive tick |
| `Ladder.PricesWiden` | `backend/app/api/v1/demo.py:77-83` | Asks climb strictly from level to level and bids never rise |
| `Ladder.LadderRests` | `backend/app/api/v1/demo.py:77-89` | All twenty-four rungs, fed to an empty engine, rest at full size with no trade |
| `Ladder.RungTells` | `backend/app/api/v1/demo.py:71-88` | Each rung's price is the greater of five ticks and 0.05% of the middle for each level away from it, to the nearest tick, a bid never below one tick; its size is the most steps worth no more than 2000 for each level, or the pair's minimum |

## Left out

- Solvent: runs do not contain stop orders: the stop endpoint and the wallets' part of the cascade are not modelled, and
  nothing is claimed of the account with them. Stops are proved at engine level, in runs of one engine.
- Solvent: its calls are the admissible ones. `Boundaries.AdmissibleExactly` and `Boundaries.RunsKeptExactly` show that
  the calls it excludes are exactly those that break the account, the ledger or the totals.
- CopyOne: the risk limits that may refuse a copy, and client order ids, are not modelled; a leader's order is never
  taken for a copy. The endpoint would log a copy whose settlement is refused and go on, keeping what was done by then;
  the model's call then answers with a violated invariant, which `CopiesInv` shows cannot happen while the account is
  exact. Relations are fixed; their endpoints are not modelled.
- DeliverStop: the object loop of the cascade has the engine's part only. What persisting a delivered stop does (trades,
  wallets, its followers' copies) and the release after it are not in it; in the runs of `RunTheorems` such copies are
  submissions of their own between two deliveries.
- DeliverBatch: the same.
- ProcessTriggeredStops: the same; nothing else reaches the engine while it runs.
- CascadeDelivers: a cascade nothing interrupts; `StopsConserved` has the others.
- EveryRunFolds: a call answered with a violated invariant changes nothing, as the database is rolled back; that the
  engine has moved by then is not modelled.
- Trading: the desk is one pair's. `ExchangeModel` has any number of pairs over shared wallets; the object model has
  one engine, so it does not capture several engines sharing one set of wallet objects.
- Trading: stored orders, trades, deposits and withdrawals are sequences the methods reassign, not row objects, so
  aliasing between row objects is not captured. The cascade call that ends an order endpoint is left out of the desk,
  where no stop is ever pending; `StopCascade` has that loop.
- Trading: after a settlement refused halfway nothing is promised of the desk. Database rollback after the engine has
  moved is not modelled; `ExchangeModel` leaves the whole state as it was and answers that the invariant is violated.
- The stop endpoint's storing and releasing around `process_order`; and the `expire_orders` job, which has nothing to
  do as no endpoint gives an order an expiry.
- A quote-funded market order that finds no liquidity, which the engine reports as filled (`Statuses.MarketStatus`): the
  endpoint refuses it before it reaches the engine.
- The two branches that put an exhausted iceberg back and that turn an open order without a rest into a filled one:
  no call reaches them.
- Whether an order has expired is a parameter: the clock is the caller's. So are the cut-off time of a candle run and
  the market price an empty first minute falls back on.
- Trade ids, timestamps, transaction ids, references and reject reasons; order of equal timestamps in the trade log.
- Decimal context rounding, and rounding when amounts are stored.
- Candles of several pairs in one job run: a table is one pair's. `log` being in time order is what the queries ask for.
- BuildLadder: asks for a positive tick, by which the source divides; `LadderRests` also for a positive minimum size.
- CopyIsGreatest: asks for a leader price that is not negative, which every limit order's is, and a positive step;
  without a step the size is the cap itself.
- Risk limits, pair and asset activity flags, symbol and side parsing, sessions, locks, Kafka, Redis, WebSockets,
  notifications, metrics, outbox and mock chain rows, the AI service, on-chain calls and the frontend.
- Depth and snapshot reports, reconciliation, balance top-ups and `ensure_liquidity_order`.
