# AntiGreed trading bot: verified model

A Dafny model of the accounting and the state machines of an automated trading bot: how a signal becomes
an order, how stops trail, how positions close and are reconciled against the broker, how the risk ledger
follows them, and how journal events reach copy-trading clients. Around that core stand the backtester and
the replay engine, the prop-firm guard, the strategy allocator, the correlation throttle, the walk-forward
splitter, the bar ingester and the Telegram sign-up conversation.

Prices, lots and percentages are exact reals and timestamps are integers of which only the order (and, for
bars, the distance) matters. A strategy is an arbitrary function of the bars it is shown. Whatever the source
asks of the outside world (bars, broker answers, environment checks, button presses) is a parameter.

## Modules

| module | what it holds |
|---|---|
| Common, Orders, Journal, Dedup | orders, the in-memory executor, the journal tables, the once-per-bar store |
| PositionSizing, Risk, Throttle, PropFirm | lot sizing, the ledger and its gates, correlated heat, the challenge account |
| Stops | the trailing stop |
| BotModel, TickModel, TickLaws, Bot | the bot over the in-memory executor: transitions, ticks, what a tick does in the numbers of bar, order and signal, and the class that performs them |
| Mt5, Live, LiveCaps | the terminal executor and the bot over it: refusals, broker-side closes, reconciliation, restarts, and what the risk gates guarantee there |
| Backtest, Capital, Replay | the bar loop, its capital bound, and the second implementation of the exit rule |
| Feed, FeedLaws | paging, filtering and bookmarks of the copy-trade feed, and what a client receives in terms of rows and picks |
| Csv, SignupModel, SignupLaws, SignupSafety, Signup | pick columns, the sign-up conversation, what a request carries, the taps that endanger one, and the bot and store that run it |
| Allocator, WalkForward, Frames, Ingest | champion/challenger grading, folds, bar tables, chunked fetching and the bar store |

State that the source updates in place is a class here (`Order`, `MockExecutor`, `RiskManager`,
`TradeJournal`, `StopManager`, `PropFirmGuard`, `Bot`, `LiveBot`, `MT5Executor`, `TelegramSignupBot`, ...).
Each of its methods is proved equal to a transition function, and the properties over whole runs are lemmas
about those functions. `dafny verify dfyconfig.toml` checks everything.

## Where the code and its own words differ

The model follows the code, and each claim that fails has its exact condition.

- `src/execution/stops.py:1-12` presents the trailing rule as a ratchet to a fixed formula. It is one exactly
  when `trail_distance_r + 1e-9 <= trail_start_r` or `trail_start_r <= breakeven_trigger_r`
  (`Stops.ClosedFormIff`); otherwise the level depends on the order in which bars arrived.
- The same text says that a stop which reached breakeven never retreats past the entry. Over all bar streams this
  holds exactly when `trail_distance_r + 1e-9` is at most the larger of `trail_start_r` and
  `breakeven_trigger_r` (`Stops.BreakevenLocksIff`); under any other policy one bar puts the stop behind the entry.
- The same text counts on the remembered original stop. Orders rebuilt from broker positions do not carry it
  (`src/execution/mt5_live.py:508-538`), so on the live path trailing ends for good exactly when the stop is at the
  entry (`Stops.LiveFrozenIffAtEntry`).
- `src/bot.py:1323-1335` refunds the booked risk. A live order carries no booking, so the refund is the full
  per-trade budget (`Live.OpenThenCloseRestoresHeatIff`).
- An empty answer and a failed position query look the same to the bot. Over any events the live books stay right
  exactly when no round after a failed query meets a visible closing deal of a live position, the trace of a partial
  close, and no restart finds open rows in a journal that does not answer (`Live.EveryRunKeepsTheBooksIff`, failing in
  `Live.PartialCloseExample` and `Live.SilentRestartExample`). After such a restart every gate can pass and the broker
  still hold more positions than the cap (`LiveCaps.OverCapExample`). The opposite-side guard holds over a run exactly
  when no position is opened against another while its query failed (`Live.EveryRunOneSidedIff`, failing in
  `Live.BlindOpeningExample`).
- The live path books risk from the broker's fill, after the gates. The heat cap survives all fills exactly as long
  as none is further from its stop than the gated distance (`LiveCaps.CapHoldsIff`).
- The in-memory executor starts every process empty and numbers its orders from 1, while the journal keeps its rows.
  So a restart can leave an OPEN row with no order behind it (`BotModel.OrphanRun`), and a later order can be placed
  under a taken id, open and unbooked (`BotModel.CollisionRun`). The ledger is exact over a run exactly when the second
  never happens, that is, when every process that began with rows in its journal places nothing
  (`BotModel.LedgerExactIff`); ledger, journal and open orders agree exactly when neither happens
  (`BotModel.EveryRunAgreesIff`).
- `src/risk/position_sizing.py:181-187` floors to the lot step so as never to round up past the intended risk, and
  then rounds to hundredths. It keeps the budget on every input exactly when the step is a whole number of hundredths,
  as the default is (`PositionSizing.NeverOverIff`).
- `src/propfirm/guard.py:61-95` divides by the baseline before it stores a kill. For a policy with a positive
  initial balance and a drawdown limit of at most 100% the division fails only when the kill is already stored, so a
  breach always blocks for ever; that is exactly the class of policies for which it does
  (`PropFirm.RaisesOnlyWhenKilled`, `PropFirm.KillIsForeverIff`).
- A backtested signal without a target gets target 0.0, which the next bar of a buy has always reached
  (`Capital.MissingTargetExitsAtZero`), and one without a stop gets the fallback lot and stop level 0.0
  (`Capital.StoplessExample`). A trade keeps its risk budget whatever comes exactly when its loss at the stop level and
  its loss at the target level are both within it (`Capital.SignalBoundedIff`). The equity curve shows no open profit
  (`Backtest.EquityConserved`).
- Replaying a trade with both multipliers at 1 is not the original trade once its stop has trailed past the
  entry (`Replay.UnitMultipliersIff`).
- The feed promises that a first poll replays nothing. Its bookmark ignores modifications, so newer ones are
  replayed (`Feed.ColdStartIsQuietIff`, reached in `Feed.ColdReplayExample`). A page that is filtered out entirely
  leaves the bookmark where it was and the client stuck behind it (`Feed.BlockedExample`), and a page cut between
  two events of the same time loses the second one (`Feed.CutIsSafeIff`). `Feed.FeedDrainsIff` is the exact condition
  for any filter and any ties. Rows stamped with an earlier time than the bookmark, such as reconciled closes, never
  arrive (`Feed.ReachesIff`).
- The sign-up text describes an e-mail step; no reachable conversation asks for one. The picker stores names in a
  comma-separated column. If every accepted tap reads back as distinct new names, however many, every request is
  complete; as soon as one does not, ordinary taps alone can finish an incomplete request
  (`SignupSafety.EveryRequestSafeIff`, with a whole run in `SignupSafety.IncompleteExample`). A request carries a
  phone number exactly when the chat's last accepted contact was not followed by a restart or a finished execute round
  (`SignupModel.RequestPhoneIff`); a stale button or a restart between them stores a request without one.
- The chunked fetch chooses the volume column per chunk, so its volumes can differ from one query's
  (`Ingest.ChunkingKeepsVolumeIff`), and an update never refreshes the newest stored bar
  (`Ingest.StoredBarsStay`).

## Model

| member | source | states |
|---|---|---|
| PositionSizing.LotIsSafeAndTight | src/risk/position_sizing.py:149-187 | for a positive stop distance, a risk in (0, 1), any grid of whole hundredths and any smallest and largest lot: the lot is 0 when no grid lot within the budget reaches the smallest; otherwise it costs at most balance times risk, is a grid lot in range or the ceiling, and one more step would cost more unless the ceiling stopped it |
| PositionSizing.DefaultLotIsSafe | src/risk/position_sizing.py:149-187 | with the default limits the lot is 0 exactly when 0.01 lots already break the budget, and otherwise lies on the 0.01 grid between 0.01 and 100 |
| PositionSizing.LotInAmounts | src/risk/position_sizing.py:149-187 | the two errors in their cases; otherwise, with the money lost per lot as stop pips times pip value: lot 0 exactly when 0.01 lots already cost more than balance times risk, else whole hundredths between 0.01 and 100 within the budget, where one hundredth more would not be |
| PositionSizing.NeverOverIff | src/risk/position_sizing.py:181-187 | over all balances, risks, stops, instruments and limits a lot sized on a step costs at most its budget, if and only if the step is a whole number of hundredths |
| PositionSizing.BookedAtMostGated | src/bot.py:1221-1239 | the risk re-derived from a sized order lies between 0 and the risk the gate approved, and a positive lot implies a positive balance |
| PositionSizing.MoneyWithinBudget | src/risk/position_sizing.py:149-187 | with a non-negative balance no sized position risks more money than its budget, a zero lot included |
| Risk.RiskManager.EvaluateSignal | src/risk/risk_manager.py:113-206 | resets the day when it changed and changes nothing else; running the gates one after the other, first refusal first, gives the decision that ApprovalLeavesRoom is about |
| Risk.RiskManager.DailyResetIfNeeded | src/risk/risk_manager.py:85-102 | on a new day only the day's profit and the date change; count and heat stay |
| Risk.RiskManager.RegisterOpened | src/risk/risk_manager.py:104-106 | one more trade, heat raised by the booked risk |
| Risk.RiskManager.RegisterClosed | src/risk/risk_manager.py:108-111 | one trade less and the heat lowered by the refund, both clamped at 0, profit added to the day |
| Risk.ApprovalLeavesRoom | src/risk/risk_manager.py:131-152 | an approved trade fits: after booking it at its re-derived risk, count and heat are still within their caps |
| Risk.LedgerGatesIff | src/risk/risk_manager.py:131-172 | the gates before the throttle pass exactly when the weight is positive, the balance reaches its minimum, count and heat leave room, the loss of the day is below its share of the balance, the profit target is not reached and no blackout runs |
| Risk.ApprovedIff | src/risk/risk_manager.py:113-206 | a candidate is approved exactly when those hold, the throttle has room for its risk, a hundredth of a lot fits its budget, and the challenge account is alive and allows stop and lot; it is approved for the sized lots |
| Risk.SeededRow | src/bot.py:357-373 | one more open row adds one to the rebuilt count and to the rebuilt heat its distance to the stop in pips times pip value times lots over the balance, nothing without a balance |
| Throttle.Decide | src/correlation/throttle.py:75-127 | the loop's verdict and reported heat are those of the clipped correlated sum |
| Throttle.HeatMonotone | src/correlation/throttle.py:83-110 | a book that holds every position of another, with multiplicity, is at least as hot |
| Throttle.OrderIrrelevant | src/correlation/throttle.py:83-127 | permuting the open positions changes neither heat nor verdict |
| Throttle.AddingNeverApproves | src/correlation/throttle.py:83-127 | positions added to a rejected book, hedges included, never turn it into an approved one |
| Throttle.OnePosition | src/correlation/throttle.py:83-110 | an open position counts in full on the symbol and side of the candidate and not at all against it; on another symbol its risk times the correlation, with the sign turned when the sides differ, from the floor on and never below 0 |
| Throttle.ApprovesIff | src/correlation/throttle.py:75-127 | a switched-off throttle or an empty book approves; otherwise exactly when heat plus own risk stays within the cap |
| Orders.MockExecutor.Place | src/execution/mock.py:73-77 | appends the order under the next id, open, and advances the id; orders stay distinct objects |
| Orders.MockExecutor.Close | src/execution/mock.py:79-86 | closes at target or stop, books the profit into the order and the balance |
| Orders.MockExecutor.Modify | src/execution/mock.py:91-98 | replaces exactly the given levels |
| Orders.MockExecutor.OpenOrders | src/execution/mock.py:88-89 | lists exactly the open orders, each once and in list order |
| Journal.TradeJournal.RecordOpen | src/execution/journal.py:64-86 | raises exactly when the id is taken, else appends the row |
| Journal.TradeJournal.RecordModify | src/execution/journal.py:88-122 | logs the modification; rows with that id get the supplied levels and keep a level not supplied, every other field and row stays |
| Journal.TradeJournal.RecordClose | src/execution/journal.py:124-140 | in the rows with that id, and no other, status, exit, time, profit and reason become those of the order; what was written at the open stays |
| Journal.TradeJournal.MarkClosedByTicket | src/execution/journal.py:163-195 | the rows of that ticket that are still OPEN, and no other, become CLOSED with the broker's price, time and profit; a reason already there stays |
| Journal.ListOpen | src/execution/journal.py:142-161 | returns precisely the rows that are OPEN, not closed and carry a ticket |
| Journal.MarkIsIdempotent | src/execution/journal.py:172-176 | settling a ticket again, with whatever information, changes nothing |
| Dedup.SignalDedupStore.Remember | src/execution/signal_dedup.py:55-66 | overwrites the last bar of one (strategy, symbol) and touches no other key |
| Dedup.OneBarSufficesIff | src/execution/signal_dedup.py:39-66 | for the gate over the store itself: remembering only the latest bar of a key lets no bar through twice exactly when equal bars arrive together |
| Stops.StopManager.UpdatePeak | src/execution/stops.py:43-50 | the remembered peak becomes the best price seen, and nothing else changes |
| Stops.ClosedFormIff | src/execution/stops.py:52-97 | the stop after every bar stream equals the better of the initial stop and the policy level at the running peak, if and only if trail_distance + 1e-9 <= trail_start or trail_start <= breakeven |
| Stops.BreakevenLocksIff | src/execution/stops.py:84-97 | over every bar stream the stop is never below the entry once the peak gain reached the breakeven trigger, if and only if trail_distance + 1e-9 <= max(trail_start, breakeven) |
| Stops.TrailingLocks | src/execution/stops.py:84-97 | under every policy, once trailing started the stop is within the trail distance of the best price |
| Stops.NeverLoosens | src/bot.py:1193-1209 | no bar loosens the stop, whatever the policy and whatever the order remembers |
| Stops.SellIsMirroredBuy | src/execution/stops.py:43-97 | a sell trailed over bars is the price-negated buy trailed over the negated bars |
| Stops.LiveFrozenIffAtEntry | src/execution/mt5_live.py:508-538 | an order rebuilt without its remembered stop is never moved again by any steps, whatever the bars, if and only if its stop is at the entry |
| Stops.OneBar | src/execution/stops.py:43-97 | one bar, for either side: the peak becomes the best price; the stop moves only for the better, to the peak less the trail distance once the gain reaches the trail start, else to the entry once it reaches breakeven, measured in distances to the remembered stop or, without one, the current stop |
| BotModel.LedgerExactIff | src/execution/mock.py:55-77 | the ledger alone, over any run of signals, trails, closes and restarts from a first start: count = number of open orders <= max, heat = sum of their booked risks <= cap, every open order is booked, at every moment, if and only if no order is placed under an id the journal holds; equivalently, if and only if no process that began with rows in its journal places an order |
| BotModel.EveryRunAgreesIff | src/bot.py:327-381 | all three books, over any such run: besides the exact ledger, the OPEN journal rows and the open orders are the same trades with the same levels at every moment, if and only if no order is placed under a taken id and no restart finds an open order |
| BotModel.OrphanRun | src/bot.py:327-381 | one placed order and a restart: the ledger is exact throughout, no id is taken twice, and the journal ends with an OPEN row that no order has |
| BotModel.CollisionRun | src/bot.py:1004-1047 | an order, a restart and an order: the last one is placed under a taken id and the ledger does not count it |
| BotModel.RestartExample | src/bot.py:895-1047 | both runs happen: concrete limits, account and signals that pass every gate before and after the restart |
| BotModel.PlacementRespectsVetoes | src/risk/risk_manager.py:160-206 | in every state an order is placed only when the correlated heat of the open positions leaves room for its risk and the challenge account is not killed |
| BotModel.CloseKeepsInStep | src/bot.py:1275-1335 | closing refunds exactly what was booked, though the stop has moved, and the clamps at 0 do not fire |
| BotModel.BookedIffIdFree | src/bot.py:1004-1047 | after placing, the count still matches the open orders exactly when the journal did not already hold the id |
| BotModel.RestartCollides | src/execution/mock.py:55-77 | a restart after at least one order makes the next id one the journal already holds |
| BotModel.OpeningKeepsOneSideIff | src/bot.py:944-963 | opening keeps one side per symbol exactly when no opposite order is open |
| BotModel.EveryRunOneSided | src/bot.py:877-963 | over all strategies and any interleaving, restarts included, open orders of a symbol are on one side |
| BotModel.AtMostOneOrderPerBar | src/bot.py:911-925 | over any run with restarts, no (strategy, symbol, bar) is ordered twice when equal bars of a key arrive together |
| BotModel.ForwardIsContiguous | src/bot.py:279-283 | bars that never go backwards per key arrive together |
| BotModel.GuardFollows | src/bot.py:1048-1052 | along every run, restarts included, the stored guard row is the challenge account's after exactly the balances the run let it observe and the trades the run booked |
| BotModel.BreachStopsTrading | src/bot.py:247-254 | once an observed balance was below the peak so far (the initial balance when the policy does not trail) by at least initial balance times drawdown percentage, no later step of any run places an order, for every policy with a positive initial balance and a drawdown limit of at most 100% |
| TickModel.TicksLead | src/bot.py:215-325 | every sequence of ticks, those cut short by a feed or strategy exception included, is exactly the run of its steps: one trail and one close per order at most, the balance observation, then the signals |
| TickModel.TicksKeepTheBooks | src/bot.py:215-325 | after any sequence of ticks from a first start the books are in step, both caps hold and every symbol is one-sided |
| TickModel.KilledTicksPlaceNothing | src/propfirm/guard.py:106-135 | once the challenge account is killed no sequence of ticks places an order |
| TickModel.TicksOrderOncePerBar | src/bot.py:279-325 | over any sequence of ticks no (strategy, symbol, bar) is ordered twice when the signals the strategies offer for a bar of a key come together |
| TickModel.BreachStopsTheTick | src/bot.py:247-254 | for an ordinary challenge, once a balance observed in this tick or before lost at least initial balance times drawdown percentage, neither this tick nor any later one places an order |
| TickModel.DailyBreachStopsTheDay | src/bot.py:247-254 | for an ordinary challenge and a clock that does not go back, once a balance observed on this tick's day lost at least initial balance times daily percentage since the day's opening, neither this tick nor any later one of that day places an order |
| TickLaws.TickExits | src/bot.py:231-246 | in a tick whose reads succeed every order open at its start leaves it closed at its trailed stop exactly when the bar touches that stop on its side, a touched target included, closed at the target exactly when only that is touched, and open otherwise; the profit is the way from the entry times 100000 units a lot |
| TickLaws.ManagedExits | src/bot.py:1241-1273 | the same for one order, with what follows: balance and daily profit take the profit of the exit, and the rows of its id say CLOSED, where, when, how much and stop or target |
| TickLaws.CloseCredits | src/bot.py:1275-1335 | a close lands at the level of its reason, earns the way from the entry, counts one out, and lowers the heat by what was booked, or the weighted per-trade risk when nothing was, neither below 0 |
| TickLaws.TrailLogs | src/bot.py:1193-1216 | a trailed order writes one modification, with the new stop and the old target, exactly when its stop moved, and nothing otherwise |
| TickLaws.PlacesIff | src/bot.py:895-988 | a signal is ordered exactly when it has both levels, its bar is not the one remembered for its key, the strategy is not alert-only, every open order on its symbol is on its side, and the gates approve it |
| TickLaws.PlacedCarries | src/bot.py:990-1047 | the order has the symbol, side, price, levels, strategy and lots of signal and decision, remembers its stop and weight; journal, count and heat take it with its distance to the stop in pips times pip value times lots over the balance, unless the journal holds its id |
| TickLaws.StackedNeedsRoom | src/bot.py:938-943 | a second order on a symbol is throttled in full: the per-trade risk of every open order on the symbol and its own fit the throttle cap together |
| TickLaws.TickCounts | src/bot.py:321-325 | the number a tick returns is the number of trades it added to the journal |
| TickLaws.OncePerBar | src/bot.py:279-283 | the signals of a symbol are handled exactly when its last timestamp is new, which is then remembered |
| TickLaws.NoNewBarNoOrder | src/bot.py:279-283 | a tick without a new bar places nothing |
| TickLaws.RestartSeeds | src/bot.py:327-381 | the process that starts has no orders, the next id 1 and no profit of the day; each row that is open with a ticket gives one count and its share of the balance at the start to the heat, each other row nothing |
| Bot.Bot.RunTick | src/bot.py:215-325 | one tick is exactly the tick transition of which TickExits, PlacesIff, PlacedCarries and TickCounts speak: manage every open order, observe the balance, then evaluate each symbol with a new bar, stopping at an exception of the feed or of a strategy |
| Bot.Bot.ManageOrders | src/bot.py:231-246 | every order open at the start of the tick is trailed and, if a level was touched, closed as ManagedExits says; a feed exception leaves the later ones untouched |
| Bot.Bot.ApplyTrailing | src/bot.py:1193-1209 | updates the peak, moves the stop if one is proposed, and journals only a stop that really moved |
| Bot.Bot.CloseOne | src/bot.py:1275-1335 | closes, journals, and refunds the booked risk (the weighted budget when there is none) |
| Bot.Bot.HandleOne | src/bot.py:895-963 | missing levels, bar already acted on, alert-only mode, opposite side and risk gates, in that order; the bar is remembered before the later gates |
| Bot.Bot.Place | src/bot.py:990-1052 | places, journals, books the re-derived risk and counts the trading day; a journal error leaves the order placed, unbooked and uncounted |
| Bot.Bot.OpenPositionsSnapshot | src/bot.py:877-882 | one entry per open order, each at the full per-trade risk |
| Bot.SnapshotShowsOpposite | src/bot.py:944-963 | the guard over the snapshot sees an opposite position exactly when an opposite order is open |
| Bot.Bot.EvaluateStrategies | src/bot.py:285-325 | strategies in turn, counting placements; an exception ends the tick with the rest skipped |
| Mt5.MT5Executor.Place | src/execution/mt5_live.py:312-375 | an order ends OPEN with the broker's fill, or REJECTED and otherwise as it was, save that a scaled lot stays scaled when only the send failed |
| Mt5.MT5Executor.Close | src/execution/mt5_live.py:377-479 | CLOSED and stamped only when the broker confirmed; every other answer leaves it REJECTED with nothing stamped |
| Mt5.FitIsSafe | src/execution/mt5_live.py:618-702 | fitting never raises the lot, an accepted order uses at most 90% of the free margin, and a scaled lot lies on the broker's grid, is not below its smallest lot and leaves no room for one more step |
| Mt5.FittingKeepsBudget | src/execution/mt5_live.py:618-702 | whatever margin data the terminal gives, the lot sent for a sized signal is never above the sized lot and costs at most its risk budget |
| Mt5.FitIff | src/execution/mt5_live.py:618-702 | with margin data a lot is rejected exactly when no free margin is left or no grid lot from the smallest on costs at most 90% of it, kept exactly when some payable grid lot is as large, and else cut to the largest payable one |
| Mt5.NoDataKeeps | src/execution/mt5_live.py:618-702 | without margin data the lot is kept |
| Mt5.LiveClosedIff | src/execution/mt5_live.py:377-479 | an order ends closed at the price of the fill exactly when it has a ticket, the broker holds volume on it, quotes the symbol and fills the close |
| Mt5.LiveClosedEarns | src/execution/mt5_live.py:780-805 | a closed order is stamped with the profits plus the swaps plus the commissions of its closing deals, and without any with the way from its entry to the price of the fill in pips times pip value and lots |
| Mt5.CloseInfoIff | src/execution/mt5_live.py:550-576 | close information exists exactly when a closing deal does, with the price and time of a deal at the latest closing time and a profit that counts every closing deal once, in whatever order they come (CloseInfoEarns says how much) |
| Mt5.CloseInfoEarns | src/execution/mt5_live.py:564-576 | the reported profit is the sum of the profits plus the sum of the swaps plus the sum of the commissions over the closing deals |
| Mt5.AppendedDeal | src/execution/mt5_live.py:550-576 | one more closing deal raises the profit by exactly its profit, swap and commission and gives price and time when it is later than all before; one more opening deal changes nothing |
| Live.LiveBot.CloseOrder | src/bot.py:1275-1335 | a refused close changes neither journal nor ledger; a confirmed one closes the row and refunds once |
| Live.CloseBooks | src/bot.py:1307-1335 | a confirmed close leaves outcome, time and level in the rows of its id and no other, its profit in the day, one trade less, and the heat lower by what was booked, or the weighted per-trade risk when nothing was |
| Live.LiveBot.ReconcileJournal | src/bot.py:531-625 | one round settles each open row whose ticket is not live and whose closing deal is visible, refunding its estimate |
| Live.LiveBot.SeedRiskState | src/bot.py:327-381 | the ledger becomes the one rebuilt from the journal's open rows, or stays empty when the journal does not answer |
| Live.ReconcileExact | src/bot.py:552-625 | exactly those rows are closed by a round; all others keep their status |
| Live.ReconcilesAs | src/bot.py:567-615 | for one listed row: nothing unless it has a ticket that is absent from the query and closed in the history; then the open rows of the ticket take price, time and profit of the history, the day takes the profit, one trade is counted out, and the heat drops by the share of the balance between entry and stop |
| Live.EveryRunKeepsTheBooksIff | src/bot.py:531-625 | over any opens, bot closes, refusals, broker closes, partial closes, failed queries, rounds and restarts, with no hypothesis: count = open journal rows, each trade refunded exactly once, live positions never marked closed, all at every moment, if and only if no round behind a failed query sees a closing deal of a live position and no restart finds open rows in a silent journal |
| Live.PlainRunsKeepTheBooks | src/bot.py:531-625 | without partial closes and silent journals nothing breaks, whatever else fails |
| Live.LiveRowClosedIff | src/execution/mt5_live.py:540-576 | a round closes the row of a live position exactly when the query failed and a closing deal of it is visible |
| Live.RestartKeepsIff | src/bot.py:327-381 | a restart keeps the books right exactly when the journal answers or has no open row |
| Live.OpenThenCloseRestoresHeatIff | src/bot.py:1323-1335 | on the live path opening and closing returns the heat to where it was exactly when the booked risk is the full budget, or the clamp hides the difference |
| Live.PartialCloseExample | src/execution/mt5_live.py:540-576 | open, partial close, failed query, round: the row of a position that is still live is closed |
| Live.SilentRestartExample | src/bot.py:327-381 | open, restart with a silent journal: the position is live, its row open, and the ledger counts nothing |
| Live.StepOneSidedIff | src/bot.py:944-963 | one event keeps the live positions of every symbol on one side unless it opens against one of them with its position query failed, and only then not |
| Live.EveryRunOneSidedIff | src/bot.py:877-963 | for every sequence of events at all: every state is one-sided if and only if no opening with a failed query met an opposite position |
| Live.BlindOpeningExample | src/execution/mt5_live.py:508-538 | two openings, the second with a failed query, leave a symbol on both sides |
| LiveCaps.CapHoldsIff | src/bot.py:1221-1239 | for every approved candidate, every ledger with a non-negative count and heat, and all margin data, the heat after booking the fill is within its cap, if and only if fills are at most the gated distance from their stop; for any larger ratio there is an approved opening that exceeds the cap |
| LiveCaps.EveryRunWithinCapIff | src/risk/risk_manager.py:131-152 | over any events the broker holds at most max_open_trades live positions at every moment, if and only if no opening goes through while it holds that many |
| LiveCaps.EveryRunWithinCap | src/risk/risk_manager.py:131-152 | that is so when the gates approved every opening and no step broke the books |
| LiveCaps.OverCapExample | src/bot.py:327-381 | with a cap of one: an approved opening, a silent restart and a second approved opening leave two live positions |
| LiveCaps.FillBooksAtMostGated | src/bot.py:990-1047 | sized, fitted to any margin and filled no further from the stop than the signal's price, an order books at most the gated risk |
| Backtest.RunBacktest | src/backtesting/engine.py:54-116 | the loop's trades, curve and equity are those of the bar-by-bar state, the open trade forced out at the last close |
| Backtest.Trade.CheckStopOrTarget | src/backtesting/engine.py:147-163 | stop before target; on a hit the trade is closed there, else untouched |
| Backtest.LoopReadsOnlyThePast | src/backtesting/engine.py:74-100 | the state after n bars is the same on every series that shares them |
| Backtest.NoLookAhead | src/backtesting/engine.py:74-116 | on a longer series the closed trades and curve points of a shorter one are kept; only the trade forced out at its end may differ |
| Backtest.EquityConserved | src/backtesting/engine.py:74-116 | final equity is the start plus every trade's profit; each curve point is the start plus the profits closed by then |
| Backtest.BarSettles | src/backtesting/engine.py:153-178 | an open trade leaves at its stop when the bar touches it, a touched target included, else at a touched target, with the way from the entry in pips times pip value and lots as its profit and in the equity; an untouched one stays |
| Backtest.BarEnters | src/backtesting/engine.py:66-96 | while a trade stays open the strategy is not asked; else it sees all bars up to this one, and what its signal opens is sized from the equity after the exit of this bar |
| Backtest.SignalOpens | src/backtesting/engine.py:119-150 | the opened trade has the time, side, price and levels of the signal, a missing level at 0.0, and 0.01 lots unless a stop away from the price sizes it |
| Capital.LossBound | src/backtesting/engine.py:119-178 | a sized trade that closes on the safe side of its stop loses at most its budget |
| Capital.CapitalBound | src/backtesting/engine.py:54-178 | for well-formed bars and sound signals (entry at the close, stop on its losing side, target not beyond the stop) no trade loses more than the risk share of the equity it was opened with, and n trades leave at least start times (1 - risk)^n, which is positive |
| Capital.FloorIsPower | src/backtesting/engine.py:54-116 | the floor of the bound is the start times the n-th power of (1 - risk) |
| Capital.SignalBoundedIff | src/backtesting/engine.py:119-178 | for every signal that opens a trade, with a stop or without: the trade loses at most its budget on every well-formed bar, if and only if its loss at the stop level and its loss at the target level, a missing level counting as 0, are both within the budget |
| Capital.OpensIff | src/backtesting/engine.py:119-149 | a signal opens a trade exactly when it needs no sizing or the risk is in (0, 1), and never with a negative lot |
| Capital.SizedStopIsWithin | src/backtesting/engine.py:119-149 | a sized signal's loss at its stop, on either side, is always within the budget |
| Capital.StoplessExample | src/backtesting/engine.py:132-136 | a buy without a stop whose loss at the target is within the budget and whose next close breaks it |
| Capital.MissingTargetExitsAtZero | src/backtesting/engine.py:119-163 | a buy without a target leaves its stop untouched and exits at price 0 on its next bar |
| Capital.MissingTargetRuins | src/backtesting/engine.py:119-163 | a concrete strategy without targets ends below zero |
| Replay.Walk | src/replay/engine.py:183-213 | returns price, reason and length of the first bar on which the backtester's exit check fires, else the last close |
| Replay.ReplayTrade | src/replay/engine.py:80-147 | exit, reason, walked length, profit and R-multiple are those of the first bar on which the exit check fires for the resolved levels, else of the last close |
| Replay.FirstExit | src/replay/engine.py:183-213 | the returned bar fires and no earlier one does |
| Replay.BacktestFollowsReplay | src/replay/engine.py:183-213 | the backtest holds a trade until the bar of the replay's first exit and closes it there at the replay's exit price, with its reason and with the profit the replay computes |
| Replay.OpenAtEndIsForcedOut | src/replay/engine.py:207-213 | a trade the replay leaves open at the end is forced out by the backtest at the same price and profit |
| Replay.WideningNeverEarlier | src/replay/engine.py:183-213 | moving both levels away never makes the exit earlier |
| Replay.UnitMultipliersIff | src/replay/engine.py:159-181 | multipliers of 1 give the stored levels back exactly when each lies on its own side of the entry |
| Replay.MultipliersWiden | src/replay/engine.py:159-181 | multipliers of at least 1 on right-sided levels never make the exit earlier |
| Replay.RAtLeastMinusOne | src/replay/engine.py:227-232 | exactly -1R on a stop and at least -1R however the walk ends |
| Replay.LevelsResolve | src/replay/engine.py:159-181 | an asked level wins over its multiplier; a multiplier scales the original distance to the entry on that side; neither keeps the original |
| Replay.RMeasures | src/replay/engine.py:227-232 | R times the distance from entry to stop is the way from entry to exit in the direction of the trade, and there is none without a distance |
| PropFirm.PropFirmGuard.ObserveBalance | src/propfirm/guard.py:44-102 | the stored row becomes that of the observe transition; a raised division stores nothing |
| PropFirm.PropFirmGuard.NoteTradeOpened | src/propfirm/guard.py:137-150 | a day's first trade counts the day once |
| PropFirm.GuardRefinesHistory | src/propfirm/guard.py:44-148 | with a clock that does not go back, peak, day open, both kills and trade days are at every moment the stated functions of the whole history, if and only if no observation raised |
| PropFirm.PositiveNeverRaises | src/propfirm/guard.py:61-95 | balances that stay positive never raise |
| PropFirm.RaisesOnlyWhenKilled | src/propfirm/guard.py:61-95 | for a policy with a positive initial balance and a drawdown limit of at most 100% an observation can raise only when the kill is already stored |
| PropFirm.KillIsForeverIff | src/propfirm/guard.py:61-135 | over every history and every later one, an observed loss of at least initial balance times drawdown percentage blocks every candidate for ever, if and only if the policy is such a one |
| PropFirm.KillLastsTheDay | src/propfirm/guard.py:106-135 | after a day's kill nothing is approved for the rest of that day |
| PropFirm.KillsInAmounts | src/propfirm/guard.py:44-102 | while nothing raised, the kill of the day is stored exactly when a balance of the day lost at least initial balance times daily percentage since its opening, the kill of the account exactly when one lost at least initial balance times drawdown percentage from the peak (from the initial balance when the policy does not trail) |
| PropFirm.LimitsAreSeparate | src/propfirm/guard.py:69-97 | a first loss between the two amounts kills the day and not the account |
| PropFirm.CheckApprovesIff | src/propfirm/guard.py:106-133 | a candidate is approved exactly when neither kill stands, it has the stop the policy asks for, and its lot is within the largest allowed |
| Feed.OnlyForward | src/api/server.py:1237-1286 | for any filters, limits and edits of the journal: events oldest first, every later poll strictly newer than all earlier ones |
| Feed.PageIsFresh | src/api/ea_signals.py:72-104 | one poll returns a sub-multiset of the journal's events, all newer than the bookmark, and the new bookmark covers them |
| Feed.NewerOfSorted | src/api/ea_signals.py:72-104 | selecting then sorting is reading the sorted events from the bookmark on |
| Feed.DeliveredIsPrefix | src/api/server.py:1254-1286 | with a fixed filter and a chronicle that grows at its end, what was delivered is exactly the passing events up to the bookmark |
| Feed.DrainsIff | src/api/server.py:1254-1286 | repeated polls deliver everything owed, one event per poll at least, if and only if no full page of filtered events stands before a passing one |
| Feed.ReachesIff | src/api/ea_signals.py:72-104 | an event reaches an unfiltered client exactly when it is stamped after the bookmark |
| Feed.CutIsSafeIff | src/api/ea_signals.py:99-104 | what a page leaves behind is all still newer than the bookmark exactly when the page is not cut between two events of the same time |
| Feed.TieAcrossPagesIsLost | src/api/ea_signals.py:99-104 | the event just past such a cut is served by no later poll of any session |
| Feed.FeedDrainsIff | src/api/server.py:1254-1286 | on any journal, with any filter, page size and ties: repeated polls deliver exactly what is owed if and only if, page by page from the bookmark, each delivers something and its bookmark skips nothing owed |
| Feed.UnfilteredDrainsIff | src/api/server.py:1254-1286 | without a filter that is: if and only if no page on the way is cut between equal times |
| Feed.BlockedExample | src/api/server.py:1268-1286 | two recorded opens and a page size of one: any number of polls delivers nothing though an event is owed |
| Feed.ColdStartIsQuietIff | src/api/server.py:1268-1286 | after a cold start nothing old is replayed exactly when no modification is newer than the latest open or close |
| Feed.ColdReplayExample | src/api/server.py:1268-1286 | one open and a later modification, which the poll after the cold start replays |
| Feed.OpenExtends | src/execution/journal.py:64-86 | recording an open now appends exactly its event to the chronicle |
| Feed.CloseExtends | src/execution/journal.py:124-140 | closing an open row now appends exactly its event, wherever the query finds the row |
| Feed.ModifyExtends | src/execution/journal.py:88-122 | logging a modification of a recorded trade appends exactly its event |
| Feed.WriteExtends | src/execution/journal.py:64-140 | each write of the trade journal itself (open, close, modification), stamped later than all before, appends exactly one event with its own stamp |
| Feed.WritesGrow | src/execution/journal.py:64-140 | journal writes stamped by a clock that moves on keep the chronicle strictly increasing and only extend it |
| FeedLaws.EventsAre | src/api/ea_signals.py:72-104 | the events are exactly one per open, one per close and one per modification of a recorded trade, each with the id, strategy and time of its trade, when ids are distinct |
| FeedLaws.PageIsOldest | src/api/ea_signals.py:72-104 | a page holds only events newer than the bookmark, none later than one it leaves out, and leaves none out while it has room |
| FeedLaws.ReplyIsMeant | src/api/server.py:1254-1265 | an event of the page is in the reply exactly when its strategy is both copyable and picked, or it is a close or a modification of a held trade |
| FeedLaws.NeverUnmeant | src/api/server.py:1254-1265 | over any polls of any journals nothing else arrives, so no open of a private or unpicked strategy |
| FeedLaws.ArrivesIff | src/api/server.py:1254-1286 | polled again and again on distinct times, a newer event meant for the client, such as the close of a trade it holds whatever it picked, arrives if and only if no full page of newer events not meant for it stands before it |
| FeedLaws.EverythingMeantArrives | src/api/server.py:1254-1286 | under the draining condition, ties included, everything meant for the client and newer than its bookmark arrives |
| FeedLaws.OnePollDelivers | src/api/server.py:1254-1286 | one poll whose page has room for the journal delivers exactly what is newer and meant for the client |
| FeedLaws.OddLimitServesHundred | src/api/server.py:1237-1238 | a limit outside 1 to 500 is served like 100 |
| FeedLaws.ColdBookmarkIs | src/api/server.py:1268-1283 | the bookmark of a first poll is the latest time a trade was opened or closed, the epoch on an empty journal |
| Csv.RoundTripIff | src/api/subscription_requests.py:36-42 | a pick list is read back as written exactly when every name is non-empty, comma-free and trimmed |
| Csv.BlanksAreLost | src/api/subscription_requests.py:36-42 | blanks of any of the ten kinds around a clean name are lost, and blanks alone leave no name |
| Csv.CleanIff | src/api/subscription_requests.py:36-42 | a clean name is one that is not empty, has no comma and neither begins nor ends with such a blank |
| SignupModel.ToggleFitsIff | src/api/telegram_signup.py:713-739 | a tap leaves the stored list distinct and within its limit exactly when it removes a name or the name reads back as distinct new picks that fit |
| SignupModel.EveryListFitsIff | src/api/telegram_signup.py:713-762 | for any sequence of messages, stale buttons, restarts and decisions: at every moment both lists of every chat are without repetition and within their limits, and all requests complete, if and only if every accepted tap fits in that sense |
| SignupSafety.EveryRequestSafeIff | src/api/telegram_signup.py:491-800 | for any such sequence: at every moment no incomplete request is stored and none can come about through taps on ordinary names, if and only if every accepted tap reads back as distinct new names, however many |
| SignupSafety.EveryRequestComplete | src/api/telegram_signup.py:491-800 | under such taps every request has three distinct signal picks, two distinct execute picks and a valid duration |
| SignupSafety.CanGoWrongIff | src/api/telegram_signup.py:741-800 | some continuation of ordinary taps stores an incomplete request exactly when some chat holds a repetition in its execute list, or in a signal list that is being picked or already has three |
| SignupSafety.IncompleteExample | src/api/telegram_signup.py:713-800 | from empty tables: a duration, a contact, one comma name and two ordinary names store a request with three equal signal picks |
| SignupModel.CleanTapsComplete | src/api/telegram_signup.py:491-800 | comma-free, trimmed, non-empty names, such as those of the keyboards the bot sends, always fit |
| SignupModel.ToggleStoresIff | src/api/telegram_signup.py:713-739 | a tap keeps the list distinct and within its limit and stores exactly the new list, unless it adds a name the column cannot hold |
| SignupModel.FinalizeCopies | src/api/telegram_signup.py:764-787 | the stored request is pending, with the chat's duration and cached phone, no e-mail, and reads back exactly its picks |
| SignupModel.RequestPhoneIff | src/api/telegram_signup.py:609-800 | over every run only a finished execute round stores a request, and it carries the phone p exactly when p is the chat's last accepted contact and no restart and no count-passing execute-done tap of the chat came after it |
| SignupLaws.RequestDurationIff | src/api/telegram_signup.py:543-596 | over every run a created request is for the code of the last accepted duration tap of its chat, with no /start and no count-passing final button after it |
| SignupLaws.DurationIsLastChoice | src/api/telegram_signup.py:491-596 | at every moment the chat remembers exactly that code |
| SignupLaws.StoringResets | src/api/telegram_signup.py:764-800 | after a request is stored its chat has no state, duration, picks or cached phone |
| SignupLaws.PhoneIsCleaned | src/api/telegram_signup.py:609-620 | a number with a plus stays, any other loses its leading zeros and gets one |
| SignupLaws.ContactOpensPicker | src/api/telegram_signup.py:609-652 | a contact shared while one is awaited caches the cleaned number and opens an empty picker, or starts over without a duration |
| SignupLaws.EmailStores | src/api/telegram_signup.py:802-827 | in the e-mail state a well-formed address with a valid duration stores a request for it without phone and picks, and nothing else stores one |
| SignupModel.StaleButtonDropsPhone | src/api/telegram_signup.py:741-800 | from any chat with its picks made: /start, the old button, a duration, the old button again store a complete request without a phone |
| SignupModel.ChatsAreIndependent | src/api/telegram_signup.py:483-596 | a chat's state after any run is its state after its own updates and the restarts alone |
| SignupModel.DecisionsStick | src/api/subscription_requests.py:289-319 | requests are never removed or edited; only a pending one changes status, and only once |
| SignupLaws.DecisionDecides | src/api/subscription_requests.py:289-319 | a decision gives exactly the named request, if pending, exactly that status |
| Signup.TelegramSignupBot.HandleMessage | src/api/telegram_signup.py:491-541 | exactly the message transition |
| Signup.TelegramSignupBot.HandleCallback | src/api/telegram_signup.py:543-596 | exactly the transition of the pressed button, of which RequestDurationIff and FinalizeCopies speak |
| Signup.TelegramSignupBot.HandlePhone | src/api/telegram_signup.py:609-652 | caches the phone and opens an empty picker, or restarts when no duration is known |
| Signup.TelegramSignupBot.HandlePickToggle | src/api/telegram_signup.py:713-739 | exactly the toggle transition; taps of the other round are ignored |
| Signup.TelegramSignupBot.HandlePickDone | src/api/telegram_signup.py:741-762 | advances or finalises by the number of picks alone, whatever the state |
| Signup.TelegramSignupBot.FinalizeSignup | src/api/telegram_signup.py:764-800 | drops the cached phone first, then restarts, fails or stores the request and resets the chat |
| Signup.TelegramSignupBot.HandleEmail | src/api/telegram_signup.py:802-827 | exactly the e-mail transition |
| Signup.SubscriptionRequestStore.UpsertState | src/api/subscription_requests.py:214-235 | sets state and duration of one chat, keeping its pick columns |
| Signup.SubscriptionRequestStore.SetStatePicks | src/api/subscription_requests.py:188-212 | replaces the given pick columns of an existing row, else nothing |
| Signup.SubscriptionRequestStore.CreateRequest | src/api/subscription_requests.py:239-262 | an unknown duration stores nothing, else one pending request is appended |
| Signup.SubscriptionRequestStore.MarkApproved | src/api/subscription_requests.py:289-303 | only a pending request becomes approved |
| Signup.SubscriptionRequestStore.MarkRejected | src/api/subscription_requests.py:305-319 | only a pending request becomes rejected |
| Allocator.ChampionChallengerAllocator.Allocate | src/allocator/allocator.py:87-99 | the grouping loop, the grading of each group and the sort give exactly the specified table |
| Allocator.ChampionChallengerAllocator.AllocateSymbol | src/allocator/allocator.py:101-144 | cold rows first, then the eligible ones graded against the first of the best |
| Allocator.OnePerScore | src/allocator/allocator.py:87-99 | exactly one allocation per score, ordered by (symbol, strategy) |
| Allocator.RowIs | src/allocator/allocator.py:101-144 | too few samples: cold at weight 0. Otherwise, against the best average of the eligible scores of its symbol: probe for all when that is below the floor; else the champion has that average, a challenger is within the tolerance of it and any other is a probe, each at its weight |
| Allocator.LexIff | src/allocator/allocator.py:98-99 | the string order of the sort: a prefix first, else the character at the first difference decides |
| Allocator.SymbolsDoNotCompete | src/allocator/allocator.py:89-99 | the rows of a symbol are a function of that symbol's scores alone |
| Allocator.OneChampionIff | src/allocator/allocator.py:110-144 | a symbol has exactly one champion if some eligible score is not below the floor, and none otherwise |
| Allocator.BetterNeverTradesSmallerIff | src/allocator/allocator.py:121-144 | on every list of scores a strictly better eligible variant of a symbol never gets the smaller weight, if and only if the champion's weight is at least the probe's, the challenger's at least the probe's when the tolerance is not negative, and the champion's at least the challenger's when the tolerance is positive |
| Allocator.DisjointGroupsAgree | src/allocator/allocator.py:87-99 | allocating groups of disjoint symbols together is sorting their separate results |
| WalkForward.WalkForwardSplits | src/ml/training.py:197-234 | each error exactly in its case; otherwise the folds' test ranges partition [m, n) with an equal share of it each, rounded down, at least 1 and the last one taking what is over, and the stated training starts |
| WalkForward.TrainPrecedesTest | src/ml/training.py:210-234 | training precedes testing in every fold exactly when the training size is not negative; sliding folds train on exactly m samples; every index of [m, n) is tested |
| WalkForward.DefaultNeverFails | src/ml/training.py:210-224 | the default training size never triggers the no-test-data error |
| WalkForward.TrainSizeIs | src/ml/training.py:215-219 | a given training size is taken as it is; the default is the largest that leaves as much for each fold, at least one sample a fold |
| Frames.NormalizeSorts | src/data/bar_store.py:135-148 | normalising yields a strictly ascending table holding, for each timestamp, the last row given |
| Ingest.BarStore.Write | src/data/bar_store.py:89-110 | the file is sorted, new rows win, other files stay, and the count is the number of new timestamps |
| Ingest.RewriteChangesNothing | src/data/bar_store.py:89-110 | writing the same bars again adds 0 and changes nothing |
| Ingest.MT5Ingester.Fetch | src/data/mt5_ingester.py:56-89 | the loop's result is the normalised concatenation of its chunks |
| Ingest.MT5Ingester.Update | src/data/mt5_ingester.py:93-125 | the file gains exactly the bars fetched from the resume point on |
| Ingest.CursorArrivesIff | src/data/mt5_ingester.py:73-83 | the loop's cursor reaches the end exactly when the chunk length is positive |
| Ingest.ChunkingKeepsBars | src/data/mt5_ingester.py:73-89 | for every positive chunk length the timestamps and prices are those of one inclusive query |
| Ingest.ChunkingKeepsVolumeIff | src/data/mt5_ingester.py:130-136 | the volumes are too exactly when the range has no exchange volume or no chunk without any serves a bar with tick volume |
| Ingest.MixedVolumeExample | src/data/mt5_ingester.py:130-136 | two bars on which they differ |
| Ingest.QueryServes | src/data/mt5_ingester.py:127-136 | a row of one query is a bar of the range with its own prices, and its exchange volume when some bar of the range has one, else its tick volume |
| Ingest.QueryMissesNothing | src/data/mt5_ingester.py:127-136 | every bar of the range has a row at its time |
| Ingest.EmptyRangeIff | src/data/mt5_ingester.py:70-71 | an empty range gives no bars, where one query gives none exactly when no bar stands at both ends |
| Ingest.UpdateCompleteIff | src/data/mt5_ingester.py:106-125 | a complete file is complete again after an update, however early it runs, exactly when no bar of the updated range follows the newest stored one by less than a bar length |
| Ingest.StoredBarsStay | src/data/mt5_ingester.py:106-115 | no later update changes a stored bar |
| Ingest.ResumesAfterNewest | src/data/mt5_ingester.py:106-115 | an update starts where it is told to, else one bar length after the newest stored bar, else 90 days back |

## Left out

- PositionSizing.LotIsSafeAndTight: a lot step of zero or less is excluded; the source divides by zero or steps upwards there.
- Throttle.OnePosition: floors outside 0 to 1 and negative risks, which no configuration uses, are excluded; the decision itself is modelled for all.
- TickLaws.StackedNeedsRoom: likewise a floor above 1 and a negative per-trade risk.
- FeedLaws.ArrivesIff: times are distinct here; EverythingMeantArrives and Feed.FeedDrainsIff treat ties.
- BotModel.AtMostOneOrderPerBar: bars of a key arriving together is a hypothesis; ForwardIsContiguous derives it from bars that never go backwards.
- Live.EveryRunKeepsTheBooksIff: a crash between two writes of one step is outside its runs.
- LiveCaps.CapHoldsIff: limits of zero or less are excluded.
- PropFirm.GuardRefinesHistory: the clock must not go backwards between calls.
- TickModel.DailyBreachStopsTheDay: the clock must not go backwards here either; BreachStopsTheTick needs no clock.
- PropFirm.KillLastsTheDay: about the rest of one day; a new day clears the day's kill by design.
- Capital.CapitalBound: sound signals (entry at the close, stop on the losing side, target not beyond the stop) are a hypothesis; some strategies do not guarantee them.
- Feed.TieAcrossPagesIsLost: SQLite leaves the order of equal timestamps open; the model sorts stably.
- Ingest.MT5Ingester.Fetch: a non-positive chunk length, on which the loop never ends (CursorArrivesIff), is excluded.
- Csv.RoundTripIff: white space is the ASCII part of what `str.strip` removes.
- Strategies, indicators, the regime classifier, the signal filter and the toggles: a pass starts from the signals that survived them; an exception inside a strategy ends the pass like an aborted signal.
- Pip lookup through the terminal: an instrument is a positive pip size and pip value.
- Kill switch, watchdog, heartbeat, notifier, narrator, fill statistics, explanations, setup alerts: no accounting state.
- Retry cooldown of refused closes and the cadence of reconciliation: both only decide when a step is taken, and the runs take steps at any time.
- Risk gates and challenge account on the live path: an opening there carries any order and any booking; EveryRunWithinCap and CapHoldsIff say what approval adds. Runs that observe the account are those over the in-memory executor.
- Float rounding: arithmetic is exact, the 1e-9 cushion of the stop policy is kept as a constant.
- SQLite, locking and failures of single statements: each statement is atomic; only a taken primary key raises.
- Close-reason wording, usernames, message texts and picker message ids: written, never read by the logic modelled.
- Event payload other than kind, trade, time and strategy: copied through unchanged.
- `note` and `updated_at` of an allocation, and the champion's win rate: presentation.
- CSV and parquet files of the bar store, column and timeframe checks, time zones: a file is the table it holds.
- Dashboard, HTTP endpoints other than the feed, mailer, calendar, authentication, machine-learning training.
