# Verified model of the mmbot order path

This project models the order path of the market-making bot and the engines that guard it, and
proves what every run of them keeps. `dafny verify dfyconfig.toml` checks everything.

Decimals and floats are exact reals, instants are reals counting seconds, and clocks, generated ids,
operator input, exchange answers, strategy verdicts and the rounding function are parameters. The
transitions are functions on values; the objects that the bot updates in place are classes whose
methods, with their loops, are proved to compute those transitions; the laws are lemmas over whole
runs of the transitions.

| file | contents |
|---|---|
| `Common.dfy`, `Sorting.dfy` | shared vocabulary; the stable library sort |
| `PaperExecution.dfy`, `PaperEngine.dfy`, `PaperLaws.dfy` | paper engine: transitions, object, laws of every run |
| `PaperFills.dfy`, `PaperRecords.dfy` | what a book update does to every order; placements, statuses and rows over runs |
| `Ladder.dfy`, `LadderRuntime.dfy`, `LadderTheorem.dfy` | ladder sync: what it must do, the loops that do it, the ladder claim |
| `LadderVolume.dfy` | how much a submission can trade under a quote's id |
| `QuoteSubmission.dfy` | submission of a symbol's quotes, end to end |
| `PaperReconciliation.dfy` | paper-mode reconciliation of dictionary and order table |
| `StopProtocol.dfy`, `LoopEffects.dfy` | interleaving of ticks, market events, commands and reloads; what each event changes |
| `Canary.dfy`, `Risk.dfy` | canary limits and latch; circuit breakers and order evaluation |
| `RateLimit.dfy` | token bucket |
| `Precision.dfy`, `LiveOrders.dfy`, `LiveHistory.dfy` | live order safety; what the rows say of the answers recorded |
| `PrivateStream.dfy`, `PrivateMessages.dfy`, `CoinstoreService.dfy` | flattening and handling of private messages, and the service object |
| `BookFeed.dfy` | order-book reconstruction |
| `Quoting.dfy` | quote ladder arithmetic and volume pressure |
| `Backtest.dfy`, `Surveillance.dfy`, `Reconciliation.dfy`, `ReconciliationReport.dfy` | backtest accounting, rate windows, snapshot comparison and its report |

## Main results

- **Ladder.** `LadderRuntime.MarketMakerRuntime.SyncPaperLadder` is proved to leave exactly the
  survivors described declaratively by `Ladder.Survives` and to ask for every desired quote an exact
  number of times; `LadderTheorem.LadderAfterSubmission`,
  `LadderTheorem.LadderExact` and `StopProtocol.EveryRunKeepsLadder` carry the ladder claim through
  every interleaving, and `QuoteSubmission.SubmitQuotes` ends with it. `LadderVolume.TradedAtMostAsked`
  bounds what a submission can trade under each id, and `LadderVolume.RefreshTradesTwice` reaches
  that bound.
- **Paper engine.** `PaperLaws.RunLawful` is one invariant over all runs: conservation, per-placement
  accounting, price limits and the mirrored table. `PaperFills.BookUpdateExactly` says what a book
  update does to every open order, and `PaperRecords.RunRecorded` what statuses and rows mean over
  every run.
- **Stops.** `StopProtocol.ActiveKillSwitchStopsQuotes` and `StopProtocol.DisableStopsQuotes` hold for
  every continuation; `PauseStopsExactly` and `ReloadLiftsExactly` say exactly when a pause, and a
  disabling followed by a reload, stop quotes. `LoopEffects` gives, for every part of the loop's state,
  exactly the events that change it.
- **Private messages.** `PrivateMessages.ReplayOfThrough` and `PrivateMessages.ReplayExactly` say when a
  redelivery stores nothing, over runs in which messages raise midway and trading pairs appear.
- **Live rows.** `LiveHistory.RunHistory` and `PrivateMessages.MessageHistory` read every row off the
  answers and reports recorded.
- **Rate limit.** `RateLimit.GrantExactly` decides every request from the history alone.
- **Exact conditions.** Where a law fails for some inputs, the condition is proved in both directions:
  `AverageStep`, `ConservationNeedsTwoAssets`, `UncrossedExactly`, `PeakIsWorstExactly`, `TrimExactly`,
  `SelfTradeCheckExact`, `PersistUncrossedExactly`, `AlwaysUncrossedExactly`, `AppliedIntentValid`,
  `BoundNeedsNotional`, `CanAcceptExactly`, `PauseStopsExactly`, `LadderClaimExactly`, `RepeatsExactly`,
  `AcquiredValidExactly`, `StoresNothingExactly`, `ReplayExactly`.

## What the code does that its documentation does not say

- A stale or drifted rung is asked for twice by the ladder sync, because the branch that would drop it
  from the left-over ladder is not reached (src/mmbot/engines/market_making/runtime.py:399-416).
  `SyncPaperLadder` gives the exact count for every rung (0 if held, 2 if refreshed, else 1),
  `Ladder.RepeatsExactly` says that a quote is repeated exactly when some rung is refreshed, and
  `LadderVolume.RefreshTradesTwice` follows one stale order through the sync to a double trade.
- A kept order with an empty client id does not count as kept (runtime.py:410), so its rung is asked
  for again. `LadderTheorem.LadderClaimExactly` shows that this is the one case in which the ladder
  claim fails for fresh ids.
- The averaging formula treats a zero average as missing (src/mmbot/execution/paper.py:182).
- The self-trade check does not look at rows in status `created`, the duplicate check does
  (src/mmbot/execution/coinstore_safety.py:63,76). `CreatedRowIsUnseen` shows a table that crosses when
  such a row opens; `PersistUncrossedExactly` says which updates are safe.
- An order whose answer names no order id, or whose symbol gets no trading pair, is live on the
  exchange without a row, since both are found out after sending (src/mmbot/execution/coinstore.py:46-48,
  274-287).
- A payload that raises drops the rest of its message (src/mmbot/execution/coinstore.py:94-107);
  `PrivateMessages.RaiseDropsRest` states it. Whether it raises can depend on the trading pairs stored,
  so redelivery of a message that raised can store a trade: `PrivateMessages.PairUnlocksFill`.
- The event loop evaluates orders at the canary and never records one (runtime.py:350), so the canary's
  position, inventory and order count do not advance: `StopProtocol.LoopNeverBooks`. `Canary.RunBounded`
  is about the controller itself.
- A list under `data` in a private message is delivered twice
  (src/mmbot/execution/coinstore.py:308-325); storing trades by id makes that harmless.
- A pause does not stop quotes that are already being submitted, and a reload lifts the operator's
  stop even if it leaves trading off.
- A negative request can overfill the rate limiter's bucket (src/mmbot/exchanges/rate_limit.py:24-33).

## Model

| member | source | states |
|---|---|---|
| `LadderRuntime.MarketMakerRuntime.SyncPaperLadder` | src/mmbot/engines/market_making/runtime.py:371-418 | The sync cancels exactly the open orders of the symbol that are not the newest on a desired rung, young and within the refresh band, and counts its cancellations; it asks for nothing but desired quotes, for each exactly 0 times if its rung is held, 2 times if its rung is refreshed, and once otherwise: first for rungs that carry orders, in dictionary order, then for empty and refreshed ones, in the order of the quotes. |
| `Ladder.RepeatsExactly` | src/mmbot/engines/market_making/runtime.py:399-416 | A sync repeats a quote exactly when the newest order of some desired rung is too old or has drifted. |
| `Ladder.RungsByFirstOrder` | src/mmbot/engines/market_making/runtime.py:376-385 | Rungs are gone through once each, exactly those that carry an order, by their first order in the dictionary. |
| `LadderRuntime.MarketMakerRuntime.GroupOpenOrders` | src/mmbot/engines/market_making/runtime.py:375-383 | The first pass cancels exactly the orders of the symbol without a rung key and files the others by key in dictionary order. |
| `LadderRuntime.MarketMakerRuntime.SyncRung` | src/mmbot/engines/market_making/runtime.py:392-409 | On a desired rung only the newest order can stay, and it stays exactly when it is younger than the limit, priced, less than the refresh threshold away from the desired price and of the desired size; the others are cancelled once each. |
| `LadderRuntime.MarketMakerRuntime.SyncKey` | src/mmbot/engines/market_making/runtime.py:386-414 | One rung of the second pass keeps the bookkeeping of cancelled, asked-for and left-over entries exact. |
| `LadderRuntime.CollectDesired` | src/mmbot/engines/market_making/runtime.py:374 | The desired dictionary holds the last quote for each key, with keys in the order of their first quote, without repeats. |
| `Ladder.RungKeyInjective` | src/mmbot/engines/market_making/runtime.py:448-449 | Within a symbol two quotes share a key exactly when side and level agree. |
| `Ladder.KeyText` | src/mmbot/engines/market_making/runtime.py:448-449 | A rung key is symbol, side name and decimal level, separated by colons. |
| `Ladder.RungOfOrder` | src/mmbot/engines/market_making/runtime.py:437-446 | An order's own key decides its rung, else its level with side and symbol from the metadata or the order; it has no rung exactly without both; an order placed for a quote is on the quote's rung. |
| `Ladder.LastQuoteWins` | src/mmbot/engines/market_making/runtime.py:374 | The desired quote of a rung is the last one given for it. |
| `Ladder.UndriftedExactly` | src/mmbot/engines/market_making/runtime.py:428-435 | An order passes the age and drift tests exactly when it is young, priced, and within a price and size band around the quote, stated without division. |
| `Ladder.SurvivorBand` | src/mmbot/engines/market_making/runtime.py:392-409 | For a desired price that is not tiny, the newest order of a desired rung survives a sync exactly when it is younger than the limit, has a price, lies less than the threshold in basis points of the desired price away from it, and has the desired size. |
| `LadderTheorem.LadderAfterSubmission` | src/mmbot/engines/market_making/runtime.py:319-418 | After a sync and submission of its result, with any interleaved book moves, cancellations and close-outs and any acceptance verdicts, the symbol's open orders other than close-outs are on pairwise distinct desired rungs; all survivors are young and undrifted, and every newer order has exactly the price, size and id of the desired quote. |
| `LadderTheorem.LadderClaimExactly` | src/mmbot/engines/market_making/runtime.py:386-414 | For fresh distinct ids, that claim holds for every submission exactly when no order with an empty client id survives the sync. |
| `LadderTheorem.LadderExact` | src/mmbot/engines/market_making/runtime.py:319-418 | If every quote is accepted, no order of the symbol fills and none is cancelled or replaced, whatever happens on other symbols, the occupied rungs are exactly the desired rungs. |
| `QuoteSubmission.SubmitQuotes` | src/mmbot/engines/market_making/runtime.py:319-365 | The submission loop, sync included: nothing happens while trading is off; otherwise the result is the sync's outcome followed by the accepted placements in order. With fresh distinct ids each quote's id has traded at most the quote's size times how often it was asked for; if no survivor has an empty id the ladder claim holds, and if all quotes asked for were accepted and nothing filled the occupied rungs are exactly the desired ones. |
| `LadderVolume.TradedAtMostAsked` | src/mmbot/engines/market_making/runtime.py:319-418 | Over every interleaving of submissions, book moves, cancellations and close-outs, the quantity traded under a desired quote's id is at most the quote's size times how often the sync asked for it. |
| `LadderVolume.FillsKeepExposure` | src/mmbot/execution/paper.py:91-110 | Fills conserve, for every client id, the quantity traded plus the quantity still resting. |
| `LadderVolume.RefreshTradesTwice` | src/mmbot/engines/market_making/runtime.py:399-416 | From one stale or drifted order on a quote's rung, every sync asks for the quote twice, and submitting its result against a crossing book trades twice the quote's size. |
| `StopProtocol.EveryRunKeepsLadder` | src/mmbot/engines/market_making/runtime.py:319-418 | In every admissible run of the event loop, with book moves, commands and close-outs between any two cancellations of a sync and any two submissions after it, the ladder invariant holds of all that is open apart from the orders the sync has still to cancel: distinct desired rungs, fresh survivors, newer orders equal to the desired quotes, nothing else but close-outs. |
| `StopProtocol.ActiveKillSwitchStopsQuotes` | src/mmbot/engines/market_making/runtime.py:112-173 | Once a tick has read an active kill switch, no continuation of the run places another quote. |
| `StopProtocol.LatchHolds` | src/mmbot/production/canary.py:55-80 | With the canary latched, every sequence of events keeps the latch and places no quote. |
| `StopProtocol.ReadStopsExactly` | src/mmbot/engines/market_making/runtime.py:156-173 | A read stops and latches exactly for an active key, or an unreadable one outside paper and shadow mode. |
| `StopProtocol.DisableStopsQuotes` | src/mmbot/engines/market_making/runtime.py:223-275 | After DISABLE_TRADING or EMERGENCY_SHUTDOWN, in any state of the tick, no quote is placed before the next configuration reload, even if trading is enabled again. |
| `StopProtocol.DisableCancelsOpenOrders` | src/mmbot/engines/market_making/runtime.py:246-250 | Disabling leaves no open paper order. |
| `StopProtocol.ReloadLiftsDisable` | src/mmbot/engines/market_making/runtime.py:223-237 | In any mode and state, if some pending quote can still pass the checks, there are placement steps that place nothing after the disabling and a quote after a reload, whatever that reload sets. |
| `StopProtocol.ReloadLiftsExactly` | src/mmbot/engines/market_making/runtime.py:223-275 | After a disabling and a reload that leaves trading off, no continuation places a quote before trading is switched on exactly when no submission is running with a pending quote that can still pass the checks. |
| `StopProtocol.PauseHolds` | src/mmbot/engines/market_making/runtime.py:264-273 | Between submissions, nothing is placed after a pause until trading is switched back on. |
| `StopProtocol.PauseStopsExactly` | src/mmbot/engines/market_making/runtime.py:264-365 | After a pause in any state, no continuation without a restart places a quote exactly when it is not the case that a submission is running, the risk kill switch is off and some pending quote can still pass the canary and mode checks. |
| `StopProtocol.PausedExactly` | src/mmbot/engines/market_making/runtime.py:264-365 | The same equivalence for every state in which trading is off, however it was switched off. |
| `StopProtocol.RunOrdersFollowCounter` | src/mmbot/engines/market_making/runtime.py:319-365 | In every paper run the number of orders created grows by the number of quotes counted plus the number of position closings. |
| `StopProtocol.LoopNeverBooks` | src/mmbot/engines/market_making/runtime.py:319-365 | Over every run the canary's mode, position and inventory stay as they were, and its order count and daily profit stay or start over at zero. |
| `LoopEffects.FlagsExactly` | src/mmbot/engines/market_making/runtime.py:223-273 | Trading and quoting go off exactly with disabling, pausing and stopping, on exactly with enabling and resuming under a read that does not stop, and to what a reload says; settings and the strategy flag change with a reload alone. |
| `LoopEffects.RiskSwitchExactly` | src/mmbot/engines/market_making/runtime.py:223-250 | The risk kill switch goes on exactly when the operator disables and off exactly with a reload. |
| `LoopEffects.LatchExactly` | src/mmbot/engines/market_making/runtime.py:112-173 | The canary latches exactly when a tick or an enabling command reads a stopping key, when a tick that trades on the exchange ends with mismatches, or when a quote that passed the risk checks meets a broken limit. |
| `LoopEffects.LatchReason` | src/mmbot/engines/market_making/runtime.py:156-173 | The reason kept is the one stored with the key, or names the failed read or the mismatch. |
| `LoopEffects.QuoteExactly` | src/mmbot/engines/market_making/runtime.py:319-365 | A quote is counted exactly when it is next, no stop is on, the limits hold and the mode may trade; in paper mode it is then the newest order, for exactly what the quote says. |
| `LoopEffects.TaskExactly` | src/mmbot/engines/market_making/runtime.py:112-120 | The tick starts exactly from idle with a read that does not stop; a symbol is priced exactly with all three flags on and data ready; its submission starts exactly with trading still on, for the last quote of each rung; and each step of a submission takes one cancellation or one quote. |
| `LoopEffects.CommandsOnPaper` | src/mmbot/engines/market_making/runtime.py:246-273 | From any state, disabling, cancelling all, restarting and stopping leave no open paper order and keep fills and account; pausing, enabling and resuming leave the engine as it was; closing positions places one order without a rung, outside the modes that trade on the exchange. |
| `LoopEffects.EventsOnPaper` | src/mmbot/engines/market_making/runtime.py:121-136 | A market event updates every open order as the book says, a running sync cancels exactly the next order that leaves, and the other events leave the paper engine alone. |
| `LoopEffects.TickEndReconciles` | src/mmbot/engines/market_making/runtime.py:708-736 | The end of a tick outside those modes leaves exactly the younger orders open, and every active paper row with an open order. |
| `PaperEngine.PaperEngine.PlaceOrder` | src/mmbot/execution/paper.py:68-75 | The object's placement computes the placement transition, including the fills of the whole symbol. |
| `PaperEngine.PaperEngine.CancelOrder` | src/mmbot/execution/paper.py:77-85 | The object's cancellation computes the cancellation transition and returns the placement it cancelled, if any. |
| `PaperEngine.PaperEngine.ReplaceOrder` | src/mmbot/execution/paper.py:87-89 | Replacing is cancelling and then placing. |
| `PaperEngine.PaperEngine.SimulateFills` | src/mmbot/execution/paper.py:91-110 | The loop over a dictionary snapshot computes the fill transition, updates every open order exactly as the book says, and returns exactly the fills it appended. |
| `PaperEngine.PaperEngine.ApplyFill` | src/mmbot/execution/paper.py:167-188 | One fill moves both balances, fees, realized profit, the order's quantities and the fill list as the settlement functions say. |
| `PaperLaws.RunLawful` | src/mmbot/execution/paper.py:57-188 | Every run of placements, cancellations, replacements and book updates, from any table, keeps all the laws below. |
| `PaperLaws.ApplyFillConserves` | src/mmbot/execution/paper.py:167-179 | A fill keeps base balance equal to bought minus sold, quote balance plus fees equal to starting cash minus buys plus sells, and realized profit equal to sales less their fees. |
| `PaperLaws.ConservationNeedsTwoAssets` | src/mmbot/execution/paper.py:58-60 | Every run conserves, for every starting cash, exactly when base and quote asset differ. |
| `PaperLaws.AverageStep` | src/mmbot/execution/paper.py:180-182 | A fill preserves average times filled equals traded notional exactly when the order was unfilled, its average is not zero, or the price is zero. |
| `PaperLaws.ZeroAverageIsLost` | src/mmbot/execution/paper.py:180-182 | From a fresh engine, a buy that fills one unit at price zero and one at price one ends with an average of one over two units, while its notional is one. |
| `PaperLaws.FillAccountsSelf` | src/mmbot/execution/paper.py:167-188 | A filled placement stays within its quantity, and with positive prices its average times filled equals the sum over its own fills. |
| `PaperLaws.MatchIsBest` | src/mmbot/execution/paper.py:152-165 | A price is found exactly when a limit-type order has an offer within its limit; it is that of the earliest best offer, for at most its size. |
| `PaperLaws.NewFillsAtBest` | src/mmbot/execution/paper.py:91-110 | A book update only appends fills, each for its symbol and at the best opposite price. |
| `PaperFills.BookUpdateExactly` | src/mmbot/execution/paper.py:91-110 | For every open order on either side: if it is of the symbol, limit-type and unfinished, and the best offer is within its limit and not empty, it grows by the smaller of what is left and what is offered, and leaves the dictionary exactly when nothing is left; otherwise it is unchanged. |
| `PaperFills.PlacementUpdates` | src/mmbot/execution/paper.py:68-75 | Placing with a book does the same to every order, the new one included. |
| `PaperFills.FillsInOrder` | src/mmbot/execution/paper.py:91-110 | The fills of a book update come in dictionary order, at most one for each order. |
| `PaperLaws.FeesFollowTrades` | src/mmbot/execution/paper.py:167-179 | In every run the fees are the fee rate, in basis points, of everything traded. |
| `PaperLaws.TableMirrorsDictionary` | src/mmbot/execution/paper.py:216-240 | From an empty table the active rows are exactly the open orders, with equal status, price, quantity, filled quantity and average. |
| `PaperRecords.RunRecorded` | src/mmbot/execution/paper.py:68-110 | Over every run from any table: a placement is open exactly when it is the last under its id and acknowledged or partly filled; each status says what it means for the quantity; the row of every id shows its last placement, status for status; rows keep account and side, and other rows are untouched. |
| `PaperRecords.CancelCloses` | src/mmbot/execution/paper.py:77-85 | Cancelling marks the placement and its row cancelled, closes the id, and touches no other order, row, fill or balance. |
| `PaperRecords.ReplaceExactly` | src/mmbot/execution/paper.py:87-89 | Replacing an open order cancels it for good, opens one new placement for the replacement, and closes the id unless the replacement takes it. |
| `PaperRecords.DictionaryOrder` | src/mmbot/execution/paper.py:68-85 | The dictionary keeps insertion order through placements and cancellations. |
| `PaperReconciliation.ReconcilePaperOrderState` | src/mmbot/engines/market_making/runtime.py:708-736 | Reconciliation cancels exactly the orders at or over the age limit, marks exactly the stray active paper rows cancelled, and counts both. |
| `PaperReconciliation.ReconciledState` | src/mmbot/engines/market_making/runtime.py:708-736 | From any table, afterwards every active paper row has an open order, the open orders are exactly the younger ones, and other rows, fills and balances are untouched. |
| `PaperReconciliation.SweptExactly` | src/mmbot/engines/market_making/runtime.py:722-736 | The sweep changes exactly the active paper rows without an open order, and of those the status alone. |
| `Canary.EvaluatedExactly` | src/mmbot/production/canary.py:55-67 | Acceptance, execution permission and shutdown hold exactly under the latch, limit and mode conditions of the day. |
| `Canary.CanAcceptExactly` | src/mmbot/production/canary.py:55-67 | Some day on which an order is accepted exists exactly when the latch is off, the mode may quote, the lasting limits hold, and the daily limits hold now or on a fresh day. |
| `Canary.EvaluatedNarrows` | src/mmbot/production/canary.py:55-67 | Evaluating one order, on any day, never makes another acceptable that was not. |
| `Canary.ReasonExactly` | src/mmbot/production/canary.py:91-105 | A refusal names the first broken limit in the order position, inventory, daily loss, order count, order notional, order type. |
| `Canary.DecisionExactly` | src/mmbot/production/canary.py:55-67 | The reason of every decision: the standing shutdown, the limit just broken, the read-only mode, the mode that does not trade outside, or permission. |
| `Canary.RecordedExactly` | src/mmbot/production/canary.py:69-76 | An accepted order moves the position by its signed notional, sets the inventory to its absolute value and counts one more for the day; a refused one moves none. |
| `Canary.ResetExactly` | src/mmbot/production/canary.py:82-86 | An approved reset lifts the latch, takes the mode and starts the count over, keeping position, inventory and profit. |
| `Canary.RunBounded` | src/mmbot/production/canary.py:69-76 | Every run keeps absolute position within max position plus max order notional and the order count within its maximum. |
| `Canary.BoundNeedsNotional` | src/mmbot/production/canary.py:97-99 | The position bound survives an order from every admissible position exactly when its notional is not below minus the order limit. |
| `Canary.ShutdownHolds` | src/mmbot/production/canary.py:55-110 | After shutdown and before an approved reset every decision refuses, across day rolls, and the position does not move. |
| `Canary.CanaryController.Evaluate` | src/mmbot/production/canary.py:55-67 | The controller's evaluation computes the evaluation function, latch and day roll included. |
| `Canary.CanaryController.RecordOrder` | src/mmbot/production/canary.py:69-76 | The controller books an order exactly when it is accepted. |
| `Risk.BreakerTracksHistory` | src/mmbot/engines/risk/engine.py:29-53 | The breaker's counters are the failures since the last reset read off the history, and the time of the latest. |
| `Risk.QueryExact` | src/mmbot/engines/risk/engine.py:46-53 | In every run a query answers open exactly when enough failures were recorded since the last reset and the latest is less than the cooldown ago. |
| `Risk.CircuitBreaker.IsOpen` | src/mmbot/engines/risk/engine.py:46-53 | The object's query computes the query function, including its self-reset. |
| `Risk.RiskEngine.EvaluateOrder` | src/mmbot/engines/risk/engine.py:92-113 | Raises exactly when the kill switch is on; otherwise it names exactly the broken limits and the enabled breakers that are open, so none exactly when all limits hold and no breaker is open; every breaker is queried once. |
| `RateLimit.IntervalLimit` | src/mmbot/exchanges/rate_limit.py:24-33 | For calls at nondecreasing instants, net tokens granted in any interval are at most one capacity plus the inflow of that interval, and without negative requests the level stays in the bucket. |
| `RateLimit.AcquiredValidExactly` | src/mmbot/exchanges/rate_limit.py:24-33 | One request keeps the level within the bucket exactly when it is not below the level minus the capacity. |
| `RateLimit.GrantExactly` | src/mmbot/exchanges/rate_limit.py:24-33 | After any calls at any instants a request is granted exactly when it fits the capacity, the starting level plus all inflow, and for every earlier call the capacity plus the inflow since, each less what was granted meanwhile. |
| `RateLimit.FullGrantExactly` | src/mmbot/exchanges/rate_limit.py:24-33 | From a full bucket at nondecreasing instants a request is granted exactly when it fits the capacity and, with what was granted since any earlier call, the capacity plus the inflow since. |
| `RateLimit.FullAfterWindow` | src/mmbot/exchanges/rate_limit.py:24-33 | A bucket left alone for one window is full. |
| `RateLimit.RefusedCallIsInvisible` | src/mmbot/exchanges/rate_limit.py:24-33 | Striking a refused call out of any run changes no other decision. |
| `RateLimit.AsyncRateLimiter.Acquire` | src/mmbot/exchanges/rate_limit.py:24-33 | For any integer request the in-place update grants exactly what fits the capacity and the level plus inflow, and keeps the level in range exactly when the request gives back no more than is free. |
| `Precision.QuantizeNearest` | src/mmbot/execution/precision.py:12-15 | Quantizing gives the nearest multiple of the increment towards zero. |
| `Precision.QuantizeIdempotent` | src/mmbot/execution/precision.py:12-15 | Quantizing twice is quantizing once. |
| `Precision.ValidIntentUnchanged` | src/mmbot/execution/precision.py:18-54 | An intent that passes validation is left unchanged by precision application, so the price checked is the price sent. |
| `Precision.AppliedIntentValid` | src/mmbot/execution/precision.py:18-54 | What precision application returns passes validation exactly when its quantity and price are positive. |
| `Precision.ValidatesExactly` | src/mmbot/execution/precision.py:40-54 | Validation accepts exactly positive whole steps at or above the minimum, and positive whole ticks that make the minimum notional. |
| `Precision.AppliedExactly` | src/mmbot/execution/precision.py:18-37 | Application fails exactly for a nonpositive step or tick or a quantized value below its minimum, and otherwise changes quantity and price alone. |
| `LiveOrders.FindSelfTrade` | src/mmbot/execution/coinstore_safety.py:69-87 | The scan finds a conflicting working order exactly when there is one. |
| `LiveOrders.SelfTradeCheckExact` | src/mmbot/execution/coinstore_safety.py:69-87 | A priced order passes the check exactly when a working row for it would leave an uncrossed table uncrossed. |
| `LiveOrders.RunUncrossed` | src/mmbot/execution/coinstore.py:38-49 | From an uncrossed table every run of faithful placements under new ids, `created` answers included, and of safe updates keeps each working buy of the account strictly below each working sell. |
| `LiveOrders.StepUncrossed` | src/mmbot/execution/coinstore.py:167-206 | One placement or update leaves an uncrossed table uncrossed exactly when the row it writes conflicts with no working row; faithful placements under new ids always do. |
| `LiveOrders.PersistUncrossedExactly` | src/mmbot/execution/coinstore.py:167-206 | Recording an answer under a known or new id leaves an uncrossed table uncrossed exactly when the resulting row is not a priced working row of the account or no working row conflicts with its side and price. |
| `LiveOrders.AlwaysUncrossedExactly` | src/mmbot/execution/coinstore.py:38-49 | Over any run of placements and updates the table is uncrossed throughout exactly when every step is safe. |
| `LiveOrders.PlacementSafe` | src/mmbot/execution/coinstore_safety.py:69-87 | A placement that passed the checks is safe if its answer, in whatever status, keeps id, side and price and its id is new. |
| `LiveOrders.UpdateSafe` | src/mmbot/execution/coinstore.py:198-204 | An update is safe on an uncrossed table unless it turns a row that is not working into a working one. |
| `LiveOrders.StepKeepsTerms` | src/mmbot/execution/coinstore.py:198-204 | No step changes the account, side, price or quantity of an existing row. |
| `LiveHistory.RunHistory` | src/mmbot/execution/coinstore.py:167-206 | Over every run of placements and updates: status, filled quantity and average of a row are those of the last answer or report recorded under its id; account, side, price and quantity those of the row it started from or of the first; an id never recorded keeps its row. |
| `LiveHistory.StatusKeepsName` | src/mmbot/execution/coinstore.py:384-394 | A reported status is stored under its own name; new counts as created and unknown as submitted. |
| `LiveHistory.AcceptedExactly` | src/mmbot/execution/coinstore_safety.py:29-87 | A placement is accepted exactly when valid, with no active row of the account under its id, and no working row of the account on the other side at a price it reaches. |
| `LiveHistory.ActiveRowsKept` | src/mmbot/execution/coinstore_safety.py:58-67 | A placement whose answer keeps its id never touches an active row of the account. |
| `LiveOrders.CreatedRowIsUnseen` | src/mmbot/execution/coinstore_safety.py:58-87 | With a `created` answer a crossing order is let through and the table crosses once the row opens. |
| `PrivateStream.PrivatePayloads` | src/mmbot/execution/coinstore.py:308-325 | The queue loop terminates on every message, with the queued node count as measure, and computes the flattening. |
| `PrivateStream.PayloadsExact` | src/mmbot/execution/coinstore.py:308-325 | The loop collects, with multiplicity, what structural recursion collects, and only unexpandable objects nested in the message. |
| `PrivateStream.DataDeliveredTwice` | src/mmbot/execution/coinstore.py:309-313 | Payloads of a list under `data` are delivered at least twice. |
| `PrivateStream.NestedExactly` | src/mmbot/execution/coinstore.py:318-325 | An object stands for the list under the first of its five nesting fields that is not empty. |
| `PrivateStream.CandidatesExactly` | src/mmbot/execution/coinstore.py:309-313 | The queue starts with the message and its four envelope fields, those present, in order. |
| `PrivateStream.LevelByLevel` | src/mmbot/execution/coinstore.py:315-325 | Payloads come level by level, in order within a level. |
| `PrivateStream.FirstFillWins` | src/mmbot/execution/coinstore.py:226-258 | Of the payloads that go through, each account and trade id keeps one trade: the stored one, otherwise the first delivered; nothing else is stored. |
| `PrivateStream.StoresNothingExactly` | src/mmbot/execution/coinstore.py:233-236 | Payloads that go through store nothing exactly when every fill among them is already stored. |
| `PrivateMessages.ReplayStoresNothing` | src/mmbot/execution/coinstore.py:94-107 | After a delivery and any run of further messages and recorded orders, delivering the message again stores no trade unless it now gets further than it did. |
| `PrivateMessages.ReplayOfThrough` | src/mmbot/execution/coinstore.py:94-107 | A message that went through once stores no further trade when delivered again after any such run, whether it then goes through or raises. |
| `PrivateMessages.ReplayExactly` | src/mmbot/execution/coinstore.py:94-107 | In any state a delivery stores no trade exactly when every fill among the payloads that go through is already stored. |
| `PrivateMessages.PairUnlocksFill` | src/mmbot/execution/coinstore.py:260-305 | A fill under a compact symbol raises and stores nothing while no trading pair matches; after an order under the normalized symbol has made the pair, redelivery stores it. |
| `PrivateMessages.TradesDelivered` | src/mmbot/execution/coinstore.py:94-107 | The trades after a message are the fills of the payloads before the first that raises, stored in turn, and no others. |
| `PrivateMessages.MessageHistory` | src/mmbot/execution/coinstore.py:94-107 | Each order row after a message says what the payloads wrote last under its id, all those that went through and the first updates of the one that raised, with the terms it started from or was first written with. |
| `PrivateMessages.MessageWrites` | src/mmbot/execution/coinstore.py:94-107 | Order rows and balance rows after a message are those of the payloads that went through, in order, and of what the raising one wrote before. |
| `PrivateMessages.PayloadRaisesExactly` | src/mmbot/execution/coinstore.py:94-107 | A payload raises exactly when a role of it cannot be read or is an unsafe fill, a symbol gets no single trading pair, or a fill names no trade or an unreadable new one. |
| `PrivateMessages.PairExactly` | src/mmbot/execution/coinstore.py:274-305 | A symbol matches by normalized name or compact form; several matches raise, one changes nothing, none makes a pair from a separated symbol that the exchange lists and raises otherwise. |
| `PrivateMessages.TradesKept` | src/mmbot/execution/coinstore.py:226-258 | No run of messages and recorded orders loses or changes a stored trade. |
| `PrivateMessages.RaiseDropsRest` | src/mmbot/execution/coinstore.py:94-107 | Payloads behind one that raises leave no trace in any table. |
| `CoinstoreService.CoinstoreExecutionService.PlaceOrder` | src/mmbot/execution/coinstore.py:38-49 | An order is sent exactly when valid, not a duplicate and safe from self-trading, unchanged from what was checked; it is recorded exactly when sent with an identified answer and a trading pair found or made, and the table is otherwise unchanged; a faithful answer under a new id keeps the table uncrossed. |
| `CoinstoreService.CoinstoreExecutionService.PersistOrder` | src/mmbot/execution/coinstore.py:167-206 | Raises exactly when the trading pair does, changing nothing; otherwise the row has the status, filled quantity and average of the answer, a new row the terms of the answer with gaps filled from the intent, and an existing one its own terms. |
| `CoinstoreService.CoinstoreExecutionService.EnsureTradingPair` | src/mmbot/execution/coinstore.py:274-305 | Raises exactly when several pairs match a symbol, or none does and none can be made; adds a pair exactly when none matches and one can be made. |
| `CoinstoreService.CoinstoreExecutionService.HandlePrivateMessage` | src/mmbot/execution/coinstore.py:94-107 | Balance rows, order rows, trading pairs and trades change as the payloads before the first that raises say, in delivery order, together with what that payload wrote before raising; it raises exactly when some payload does; no stored trade changes. |
| `BookFeed.SequenceState.Validate` | src/mmbot/websocket/connectors.py:47-58 | A number is valid exactly when it fits the last one; a refusal only counts a gap. |
| `BookFeed.FeedReflectsHistory` | src/mmbot/websocket/connectors.py:78-110 | The book always equals the last snapshot with all later accepted deltas folded in, price by price what was said last; the sequence state is the last number. |
| `BookFeed.NumbersIncrease` | src/mmbot/websocket/connectors.py:47-58 | Accepted numbers strictly increase, and a supplied previous number equals the last one known. |
| `BookFeed.RefusedDelta` | src/mmbot/websocket/connectors.py:89-95 | A refused delta changes only the gap counter. |
| `BookFeed.AcceptedExactly` | src/mmbot/websocket/connectors.py:47-58 | A delta is accepted exactly when there is a book and, where both numbers are known, its number is beyond the last and its previous number, if given, is the last. |
| `BookFeed.GapsCounted` | src/mmbot/websocket/connectors.py:89-95 | The gap counter is the number of deltas refused since the last snapshot. |
| `BookFeed.Publish` | src/mmbot/websocket/connectors.py:67-70 | The published side is strictly sorted and lists exactly the positive entries. |
| `BookFeed.PublishedReflects` | src/mmbot/websocket/connectors.py:67-110 | A price is published with a size exactly when that size was said last about it and is positive. |
| `BookFeed.OrderBookReconstructor.ApplyDelta` | src/mmbot/websocket/connectors.py:89-110 | The object applies or refuses a delta as the transition says, and leaves all other books alone. |
| `Quoting.Build` | src/mmbot/engines/market_making/engine.py:90-109 | The loop emits one buy and one sell rung per level, innermost first. |
| `Quoting.LadderEntries` | src/mmbot/engines/market_making/engine.py:95-108 | Entry by entry: buy and sell of each level from the innermost, with rounded price, size, level and id. |
| `Quoting.UncrossedExactly` | src/mmbot/engines/market_making/engine.py:67-106 | All bids are at or below all asks for every skew exactly when spread plus volatility buffer covers the absolute imbalance. |
| `Quoting.LadderUncrossed` | src/mmbot/engines/market_making/engine.py:90-109 | With monotone rounding every bid of a ladder is at or below every ask, and sizes stay in their range. |
| `Quoting.SkewLeansAgainstInventory` | src/mmbot/engines/market_making/engine.py:57-59 | Holding more of the base asset never raises the price of a rung. |
| `Quoting.SizesGrowOutwards` | src/mmbot/engines/market_making/engine.py:98 | The inner rung has the base size and sizes never shrink outwards for a multiplier of at least one. |
| `Quoting.SizesExactly` | src/mmbot/engines/market_making/engine.py:94-98 | Sizes are the base times the multiplier once per level beyond the first, clamped to the range; the number of levels is the smallest of its three limits. |
| `Quoting.SpreadInRange` | src/mmbot/engines/market_making/engine.py:47-50 | The spread stays in its configured range and covers imbalances up to its minimum. |
| `Quoting.SpreadWidens` | src/mmbot/engines/market_making/engine.py:47-50 | The spread grows with volatility and with imbalance. |
| `Quoting.SpreadExactly` | src/mmbot/engines/market_making/engine.py:47-64 | The spread is the base widened by a share of itself for the imbalance and by weighted volatility, clamped to the range. |
| `Quoting.SkewExactly` | src/mmbot/engines/market_making/engine.py:57-59 | Skew is a hundred basis points per unit of deviation times the intensity. |
| `Quoting.RungPriceExactly` | src/mmbot/engines/market_making/engine.py:95-106 | Rung prices in closed form: a factor on the mid price, improved for the imbalance, and kept within the larger of the level spread and one basis point. |
| `Quoting.PressureKeepsLadder` | src/mmbot/engines/market_making/runtime.py:514-530 | The volume-pressure pass keeps rungs, keeps a bid below an ask, and keeps sizes within the maximum. |
| `Quoting.PressedExactly` | src/mmbot/engines/market_making/runtime.py:521-528 | Sizes are scaled up to the maximum and prices pulled a millionth inside the opposite side; side, level and id stay. |
| `Quoting.GenerateQuotes` | src/mmbot/engines/market_making/runtime.py:311-312 | The quotes that reach submission are the rungs of the ladder in order, each passed through the pressure pass if that applies; they are uncrossed and within the maximum size. |
| `Backtest.ReplayOrder` | src/mmbot/simulation/backtesting.py:57-59 | Replay permutes the events into time order, ties in their given order. |
| `Backtest.Run` | src/mmbot/simulation/backtesting.py:68-101 | Final equity is initial cash plus initial inventory at the final price, plus signed quantity times price change over executed trades, minus fees; inventory, fees, realized profit, the count of refused trades and the equity curve likewise follow from the events. |
| `Backtest.TradeBalanced` | src/mmbot/simulation/backtesting.py:89-98 | A trade keeps the equity identity at every mark. |
| `Backtest.TradeTerms` | src/mmbot/simulation/backtesting.py:81-90 | Exactly allowed trades are copied, for their own quantity up to a hundredth, with a fee of the rate in basis points of the value. |
| `Backtest.MaxDrawdown` | src/mmbot/simulation/backtesting.py:103-110 | The loop computes the running-peak drawdown. |
| `Backtest.RunningIsMaximal` | src/mmbot/simulation/backtesting.py:103-110 | If at every point the peak gives the deepest fall, as on a nonnegative curve, the running-peak drawdown is attained by a pair of points and no pair falls deeper. |
| `Backtest.PeakIsWorstExactly` | src/mmbot/simulation/backtesting.py:106-109 | At a point the peak gives the deepest fall exactly when the point is nonnegative or no earlier positive equity differs from the peak. |
| `Backtest.NegativeEquityMissesWorst` | src/mmbot/simulation/backtesting.py:103-110 | A concrete curve with a negative equity whose deepest fall is missed. |
| `Surveillance.TrimExactly` | src/mmbot/surveillance/anti_manipulation.py:130-132 | Trimming keeps exactly the window if and only if no stale entry sits behind a recent one. |
| `Surveillance.QueueIsWindow` | src/mmbot/surveillance/anti_manipulation.py:70-92 | For nondecreasing instants a queue equals the full recorded history filtered to its window. |
| `Surveillance.AntiManipulationEngine.RecordOrder` | src/mmbot/surveillance/anti_manipulation.py:70-82 | The spam alert fires exactly when the true count of the last second exceeds the limit, the self-trade alert exactly when an equal-priced opposing order of the account is open, and the collision alerts are exactly for the equal-priced opposing orders of other accounts. |
| `Surveillance.AntiManipulationEngine.RecordCancel` | src/mmbot/surveillance/anti_manipulation.py:84-92 | The cancel alert fires exactly when the true count in the window exceeds the limit. |
| `Surveillance.DetectSelfTrade` | src/mmbot/surveillance/anti_manipulation.py:109-114 | The scan alerts exactly when an opposing order of the same account, symbol and price is open. |
| `Surveillance.DetectCollisions` | src/mmbot/surveillance/anti_manipulation.py:116-122 | The scan returns exactly the open orders of other accounts on the symbol, on the other side at the same price. |
| `Reconciliation.Reconcile` | src/mmbot/reconciliation/engine.py:82-89 | The five comparators in order, over keys in ascending order. |
| `Reconciliation.NoMismatchExactly` | src/mmbot/reconciliation/engine.py:101-165 | Nothing is reported exactly when, after last-wins collapse, both snapshots have the same keys and agree within tolerance on every compared field. |
| `Reconciliation.ReconcileSwapped` | src/mmbot/reconciliation/engine.py:82-165 | Swapping the snapshots yields the same categories, keys, severities and messages in order, with the two values exchanged. |
| `ReconciliationReport.KeyReport` | src/mmbot/reconciliation/engine.py:101-147 | For one key: a critical entry if one side lacks it, else a critical one for the first field and a warning for the second, each exactly if the values are further apart than the tolerance, with the words and values shown. |
| `ReconciliationReport.ComparatorReport` | src/mmbot/reconciliation/engine.py:101-147 | A comparator reports what each key of either side calls for and nothing else. |
| `ReconciliationReport.FillReport` | src/mmbot/reconciliation/engine.py:149-152 | A fill is reported exactly when one side lacks it, with which side has it. |
| `ReconciliationReport.PnlReport` | src/mmbot/reconciliation/engine.py:154-165 | One critical entry if one side has no record, else a warning for each component apart by more than the notional tolerance. |
| `ReconciliationReport.ReportOrder` | src/mmbot/reconciliation/engine.py:82-89 | The report is that of balances, positions, orders, fills and profit, in this order. |
| `ReconciliationReport.KeysAscend` | src/mmbot/reconciliation/engine.py:101-147 | Within a comparator the entries go through the keys in ascending order. |
| `ReconciliationReport.LastRecordWins` | src/mmbot/reconciliation/engine.py:101-103 | The last record of a key stands for it. |
| `Sorting.SortByStable` | src/mmbot/simulation/backtesting.py:59 | The sort keeps elements with equal keys in their order. |

## Left out

- HTTP and WebSocket clients, signing, encryption, FastAPI routes, dashboard, CLI and deployment: input, output and foreign calls.
- Database sessions, flush and rollback failures: the order and trade tables are maps, and each check-then-place step is atomic.
- Float rounding, decimal context precision and id generation: exact reals, a monotone rounding parameter, and ids as inputs.
- Order objects are values in a list indexed by placement, so the alias that `place_order` returns to its caller is not captured; update timestamps, exchange order ids and the metadata of stored rows are not modelled.
- Mark price, unrealized profit, the positions table and the trade rows of the paper engine: they only copy values.
- The choice of size and price in `_close_paper_positions`, and `_close_coinstore_positions`: outside the quote path; `StopProtocol` has the former as a command that places a given order without a rung.
- Each placement, cancellation, book update and command is one atomic step. The source suspends in `place_order` before it fills (src/mmbot/execution/paper.py:71) and inside the loop of `simulate_fills` (paper.py:101,109); a cancellation there lets the loop fill a cancelled order and leave an active row without an open order. The loops over several orders in commands and reconciliation suspend likewise.
- The ladder sync is one step of `LadderRuntime` and `LadderTheorem`; in `StopProtocol`, as in the source (runtime.py:381-405), its decisions are taken on the orders open at its start and other events run between its cancellations. The drift threshold is the one at the start, while the source reads it again at each order (runtime.py:435), so a reload in the middle of a sync takes effect at the next one here.
- `StopProtocol` takes the verdict of the risk limits and breakers for each quote as an input, and models the stale, replacement and rejection counters of the lifecycle metrics not at all.
- LadderTheorem.LadderAfterSubmission: assumes that the desired quotes have fresh, pairwise distinct client ids, as generated ids guarantee, and that no survivor has an empty one; `LadderTheorem.LadderClaimExactly` shows that the latter is needed.
- StopProtocol.EveryRunKeepsLadder: assumes the same at each sync, and that a close-out does not reuse the id of a pending quote.
- Canary.RunBounded: assumes recorded notionals not below minus the order limit; `Canary.BoundNeedsNotional` shows that this is what is needed.
- LiveOrders.RunUncrossed: assumes that client ids are not reused, that answers keep id, side and price, and that updates are safe; `LiveOrders.AlwaysUncrossedExactly` needs no assumption on the events.
- Backtest.RunningIsMaximal: assumes that the peak suffices at every point, which `Backtest.PeakIsWorstExactly` characterises.
- Surveillance.QueueIsWindow: assumes nondecreasing instants; the exact condition for one trim is `Surveillance.TrimExactly`.
- RateLimit.IntervalLimit: counts net tokens, so a negative request lowers the count.
- `record_fill` and execution clusters of the surveillance engine: the same window and the same scan.
- The counts returned by `handle_private_message` and the field readers of its payloads: what a payload says in each role, or that it cannot be read, is an arbitrary function of it, with order ids generated for nameless orders fixed by it; what the session keeps of a message that raised is taken to be what was written before.
- Upper-casing of symbols, stale and orphan detection and live reconciliation of the Coinstore service: they add only easy members.
- Strategy regimes, inventory ratios, liquidity bands, risk score, volume urgency, metrics and alert routing: heuristic; their results are inputs here.
