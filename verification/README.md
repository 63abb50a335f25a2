# Market Lens, modelled in Dafny

Market Lens is a Go server with a Vue client that stores daily market data, computes features
from it, backtests ranking strategies over them and shows the results to signed-in people.
This project models its hard core and proves what its comments and documents promise.

| module | what it models |
|---|---|
| `Decimal`, `Digits`, `DecimalText` | the exact decimal kernel: integers scaled by 10^12, half-even rounding, reading and writing text |
| `Costs`, `Sizing` | what an order costs, how many shares a budget buys, and how far rounding can take the one from the other |
| `BacktestModel`, `BacktestEngine`, `Ordering` | the simulation: a queue keyed by session, a cash and holdings book, outcome lists. The first is the specification on values, the second the engine as it runs, updated in place and held to it |
| `Lookups`, `Fills`, `Decisions`, `ExecutionOrder` | what its lookups mean, and what every trade, skip and row of a run is, said from the inputs and the run's own record |
| `NoLookahead`, `Outcomes`, `Conservation`, `CashEquity`, `Overdraft` | what every run of it keeps, and the runs that keep less |
| `FeatureCalendar`, `FeatureHistory`, `FeatureRounding`, `CompositeMean` | sessions, windows by run-length index, split adjustment with its cache, digit-buffer rounding, the order-free mean |
| `FeatureRuns`, `FeatureRows`, `FeatureComposite`, `FeatureReach` | what a row and the composite are, full and incremental passes over stored rows, the composite and its readers, members on different calendars touched on different dates |
| `FeatureStore`, `FeatureScopes`, `FeatureSeries`, `FeatureService` | the service's loops held to them: one instrument's rows, the scopes, the composite stage, whole runs |
| `RateLimiter`, `MemberThrottle`, `MemberCodes`, `SigningKey` | durable authentication state, each transaction or statement one step, over arbitrary runs |
| `EventStream`, `StreamPromises`, `Coalesce`, `PercentText` | the resumable event stream, the request coalescer, the digit-string printers |

Where the source updates state step by step the model does too: a class or an array with a
specification function, and a method whose postcondition equates the two. Runs are sequences of
steps of any length, with clocks, failures and interleavings arbitrary. A session is its index in
the calendar, a date or an identifier an integer, a decimal an integer count of 10^-12.

## What was found

Seven promises hold only under a condition. Each has an input that fails it and the condition.

- Sizing: exact costs "can only come in under the budget" is not so at a storable price
  (`Sizing.EstimateIsNotConservative`). Every budget that affords n shares covers them if and only if
  they cost no more than the least such budget (`Sizing.BudgetIsKeptExactly`). The spend exceeds a
  budget by at most an explicit bound less the brokerage set aside and not paid
  (`Sizing.SpendWithinBound`). The correcting loop keeps the cash covered.
- Shares: a run can buy a hundred and hold fifty (`Conservation.SharesLostWithoutABar`). Holdings are
  what was bought less what was sold if and only if no filled purchase finds its instrument held
  (`Conservation.ConservedExactly`), as when each instrument trades between two rankings of it
  (`Conservation.SharesConserved`).
- Cash: a run can end below zero (`Overdraft.RunOverdraws`), and does so exactly at a sale whose costs
  exceed its consideration by more than there is (`CashEquity.OnlyACostlySaleOverdraws`).
- Incremental features equal a full pass under two conditions. The opening: no stored session past
  the reach has a window starting before the first bar stored before, exactly
  (`FeatureRuns.IncrementalIsFull`; `FeatureRuns.EarlierBarNeedsAFullPass` fails it, a contiguous
  backfill meets it). The reach: each member, touched or not, is rewritten over a span counted on its
  own calendar, which must take in every session at which the longest reader sees a changed composite,
  exactly (`FeatureReach.AlwaysFullExactly`). It may not: when another member was touched elsewhere
  (`FeatureReach.DistantImportLeavesStale`), or on a day that is a holiday of the untouched member's
  exchange (`FeatureReach.HolidayLeavesStale`). `FeatureReach.NearChangesAreReached` is a guard on the
  dates. The composite itself is always rewritten in full, since an import of positive closes loses no
  session (`FeatureComposite.NoSessionIsLost`). `FeatureService.PricedRunIsFull` joins them over a run.
- Events: the client listens for a fixed list of types, and any other the server sends, such as
  signals.changed.v1 (server/internal/strategies/repository.go:321), is never delivered and never moves
  the resume point (`EventStream.UnlistenedIsSkipped`). What is delivered is a prefix of the authorized
  log exactly when every event of that stretch is of a listed type (`EventStream.PrefixExactly`).
- Rate events: a prune is invisible to a clock if and only if the clock is not behind it
  (`RateLimiter.InvisibleExactly`); a prune ahead of a request can let a limit be exceeded
  (`RateLimiter.EarlyPruneExceedsTheLimit`).
- Decimal text: a second sign is read as one and what follows the twelfth place need not be digits
  (`DecimalText.SecondSignIsRead`, `DecimalText.LetterRoundsUp`); `DecimalText.AcceptedExactly` says
  which texts are accepted, and the rounding theorem is about texts of digits.

One more: an empty list of definitions replaces every definition's rows, so a run over the composite's
readers when there are none clears the range (`FeatureRuns.OtherDefinitionsSurvive`).

## Model

| member | source | states |
|---|---|---|
| Decimal.HalfEvenIsNearest | server/internal/decimal/decimal.go:159-180 | what divideHalfEven computes is an integer within half a unit of the exact quotient, even on a tie, and no other integer is; every sign of numerator and denominator |
| Decimal.DivideHalfEven | server/internal/decimal/decimal.go:159-180 | the method with its one correction and its sign restored at the end returns exactly that integer |
| Decimal.HalfEvenUnique | server/internal/decimal/decimal.go:156-158 | at most one integer is the half-even rounding of a quotient |
| Decimal.MulDivNearest | server/internal/decimal/decimal.go:104-110 | a product and a quotient are each the half-even neighbour of the exact result at the twelfth place, for all signs |
| Decimal.MulWhole | server/internal/decimal/decimal.go:104-106 | multiplying by a whole number is exact |
| Decimal.Floor | server/internal/decimal/decimal.go:121-129 | the greatest whole number of units at or below the value, for negative values too |
| Decimal.FloorTruncated | server/internal/decimal/decimal.go:123-129 | the truncated quotient corrected on a negative remainder is that floor |
| DecimalText.ParseInPlace | server/internal/decimal/decimal.go:47-84 | the parse as it runs, with its number adjusted in place, is ParseDec on every text, errors included |
| DecimalText.ParseIsRounding | server/internal/decimal/decimal.go:45-84 | the parse of any signed text of digits, with a fraction of any length, is the half-even rounding of the number written to twelve places |
| DecimalText.ParseRender | server/internal/decimal/decimal.go:136-149 | ParseDec of String is the identity on every decimal |
| DecimalText.RenderInjective | server/internal/decimal/decimal.go:136-149 | two decimals never print alike |
| DecimalText.TwelvePlaces | server/internal/decimal/decimal.go:136-149 | every decimal prints as a minus sign exactly when it is negative, at least one digit, a point and exactly twelve digits |
| DecimalText.TailRounds | server/internal/decimal/decimal.go:69-79 | looking at the first dropped digit, the rest of the tail and the parity decides the half-even rounding |
| DecimalText.AcceptedExactly | server/internal/decimal/decimal.go:45-68 | for every text: it is accepted exactly when it is not blank, has something before or after the point, and what is handed to the integer reader is digits after at most one more sign |
| DecimalText.AcceptedBeyondDecimals | server/internal/decimal/decimal.go:45-79 | of what is accepted, exactly the texts with a second sign or with something else than digits past the twelfth place are not decimals |
| DecimalText.SecondSignIsRead | server/internal/decimal/decimal.go:52-68 | such a text: two minus signs and a five read as five |
| DecimalText.LetterRoundsUp | server/internal/decimal/decimal.go:69-79 | and another: a letter in the thirteenth place rounds up |
| DecimalText.SpacesAround | server/internal/decimal/decimal.go:47-51 | white space around a text changes nothing, and a text of nothing else is refused as empty |
| DecimalText.EmptyExactly | server/internal/decimal/decimal.go:47-51 | a text is refused as empty exactly when it is white space throughout |
| Costs.PriceMeans | server/internal/costs/costs.go:86-111 | each component of an execution is its own half-even rounding: the consideration and its slippage rounded in the listing currency and then converted, the spread of the slipped consideration and only across currencies, the brokerage the greater of the rate's share and the minimum |
| Costs.BasisPointsMean | server/internal/costs/costs.go:42-51 | each rate is a ten-thousandth of its figure, rounded half to even; the minimum is the amount as stated |
| Costs.PerShareMeans | server/internal/backtest/execution.go:107-113 | one share's estimate is its price with slippage, converted, with the spread of that across currencies and the brokerage of what it comes to, each rounded half to even for itself |
| Costs.SaleTakesCash | server/internal/costs/costs.go:104-110 | a sale moves cash down exactly when its costs exceed its consideration |
| Costs.MinimumExceedsProceeds | server/internal/costs/costs.go:100-110 | such a sale exists: a brokerage minimum above the proceeds |
| Costs.AffordableQuantity | server/internal/backtest/execution.go:107-122 | the quantity is a non-negative whole number of shares |
| Sizing.SpendWithinBound | server/internal/backtest/execution.go:101-122 | for any positive price and rate and non-negative cost rates, the exact spend of the quantity bought exceeds its budget by at most an explicit bound, less the brokerage that was set aside and is not paid: a number of units a share, a number an order, and half a unit of one share at its estimated cost |
| Sizing.SpendWithinBudget | server/internal/backtest/execution.go:104-106 | a check without the estimate, enough and not needed: the spend is within the budget whenever the brokerage set aside and not paid is at least that bound; the exact condition is in the next row |
| Sizing.BudgetIsKeptExactly | server/internal/backtest/execution.go:104-106 | exactly when it holds: every budget that affords n shares covers them if and only if they cost no more than the minimum, n estimated shares and the rounding forgiven in reaching n |
| Sizing.AffordsFrom | server/internal/backtest/execution.go:107-122 | a budget affords at least n shares exactly from that least budget on |
| Sizing.PerShareLower | server/internal/backtest/execution.go:108-113 | the per-share estimate is below the exact per-share cost by at most a stated number of units of the twelfth place |
| Sizing.EstimateFits | server/internal/backtest/execution.go:117-121 | the whole shares times the estimate fit what is available, up to half a unit a share |
| Sizing.EstimateIsNotConservative | server/internal/backtest/execution.go:104-106 | otherwise the comment that exact costs can only come in under the budget fails, at a price of eight places: with a brokerage of 0.4 basis points a budget of 100,000 units gives ten shares of 10,000 units that cost 100,004 |
| Lookups.NextTradedMeans | server/internal/backtest/execution.go:22-36 | the execution session is the least traded one after the signal, if the calendar goes on and it lies within the give-up window; and conversely |
| Lookups.PriceAsOfMeans | server/internal/backtest/execution.go:44-58 | a holding is priced at the session's own close or that of the greatest earlier traded session within the give-up window; and conversely |
| BacktestModel.FirstAfter | server/internal/backtest/execution.go:27-31 | the search returns the first traded session after the given one, or the length |
| BacktestModel.ScheduleCases | server/internal/backtest/execution.go:22-36 | a decision is queued for a traded session strictly later and within the give-up window, or is skipped with a reason; nothing else changes |
| NoLookahead.NextCarries | server/internal/backtest/execution.go:22-36 | a next traded session by k is found alike in inputs that agree through k |
| NoLookahead.PriceAsOfAgree | server/internal/backtest/execution.go:44-58 | the valuation price at a session by k is the same for inputs that agree through k |
| Sizing.SpendUpper | server/internal/costs/costs.go:86-111 | the rounded costs of an order exceed the exact ones by at most a stated number of units, besides the brokerage minimum and less the brokerage not paid: of the minimum and the rate's share only the greater is |
| Lookups.DesiredMeans | server/internal/backtest/service.go:280-293 | with unique rankings an instrument is wanted exactly when it is scored and fewer than N scored entries precede it |
| BacktestModel.TrimCovers | server/internal/backtest/service.go:391-394 | the loop that gives shares back ends covered by the cash or at nothing, keeps whole shares whole, never adds one, and one share more than it keeps would not have been covered |
| BacktestModel.Step | server/internal/backtest/service.go:197-215 | a session keeps the queue ahead of the calendar and the book among known instruments |
| Fills.BoughtIsMost | server/internal/backtest/service.go:379-410 | a purchase is of the most whole shares that the smaller of its budget and the cash affords by the estimate and the cash covers at cost |
| Fills.DecideMeans | server/internal/backtest/service.go:349-410 | a due decision fills at that session's open and conversion, in all that is held or the most that can be bought, or is refused for the reason that holds |
| Decisions.EveryTrade | server/internal/backtest/service.go:349-427 | over every run each trade's price is its instrument's open at its execution session; its conversion none or that session's stored rate; a sale is of all that the earlier trades left; and slippage, spread, brokerage and cash effect are each stated as rounded |
| Decisions.RunIsRight | server/internal/backtest/service.go:273-427 | over every run each trade carries out a decision of a planning session at the first session its instrument trades after it within the give-up window: a sale of what was held and not wanted, a purchase of what was wanted and not held for an N-th of cash and what could be valued; and each skip's reason is what was so |
| Decisions.DecidedOnRecord | server/internal/backtest/service.go:273-345 | what was held and what could be invested at a decision are the book, the cash and the recorded values of the run's own trades and rows |
| Decisions.PlansExactly | server/internal/backtest/service.go:243-270 | with weeks and months in order a run plans on its first session and then on every one, or the first of each ISO week, or the first of each month |
| Decisions.RebalancesCounted | server/internal/backtest/service.go:208-216 | the rebalances a run counts number exactly those sessions |
| Decisions.RowsAreTheBook | server/internal/backtest/portfolio.go:54-92 | the position rows of every session are the book its trades left: each held instrument once, in identifier order, with its quantity and mark |
| Decisions.DrawsCounted | server/internal/backtest/service.go:412-417 | the identifiers a run draws number its trades and the draws that failed |
| ExecutionOrder.TradesComeInTurn | server/internal/backtest/service.go:196-200 | trades come session by session; of one session's, those decided earlier first; and of one decision's, its sales by identifier before its purchases as ranked |
| NoLookahead.RunsAgreeThrough | server/internal/backtest/service.go:176-236 | no lookahead: two whole runs over inputs that agree through session k, and differ arbitrarily after, have the same trades executed by k and the same position and equity rows through k |
| NoLookahead.RunAgree | server/internal/backtest/service.go:191-216 | after each session by k the two runs hold the same cash, holdings, outcomes recorded and queue due by k |
| NoLookahead.ScheduleAgree | server/internal/backtest/service.go:301-311 | peeking at the next traded session only decides what happens after k: what is due by k stays the same |
| NoLookahead.FilterRun | server/internal/backtest/service.go:197-215 | what a run executed and recorded by session k is what it had after that session: later sessions only append |
| Outcomes.OutcomesAccount | server/internal/backtest/service.go:301-343 | at every point of every run, trades, skips and queued executions together are exactly the signals considered so far, as multisets |
| Outcomes.EveryOutcomeOnce | server/internal/backtest/service.go:191-232 | with unique rankings, at the end the queue is empty and each signal considered on a rebalance session has exactly one trade or one skip, any other pair none |
| Outcomes.OutcomesCount | server/internal/backtest/service.go:301-427 | trades plus skips plus queued executions number the ranked entries of the rebalance sessions so far |
| Outcomes.ExecuteAccounts | server/internal/backtest/service.go:349-427 | each execution turns one queued decision into exactly one trade or one skip |
| Outcomes.RebalancedAccounts | server/internal/backtest/service.go:273-345 | planning accounts for its whole ranking once each: a sale, a skip or a purchase |
| Conservation.SharesConserved | server/internal/backtest/service.go:313-425 | if every instrument trades on some session between any two rebalance sessions that rank it, it has at most one queued execution, of the kind its holding admits, and each held quantity is bought minus sold, at every point of the run |
| Conservation.ConservedExactly | server/internal/backtest/service.go:421-425 | over any run at all, each holding is what was bought less what was sold if and only if no filled purchase found its instrument already held |
| Conservation.DueFindsItsBook | server/internal/backtest/service.go:365-425 | then a due purchase finds its instrument unheld and a due sale finds it held, at the moment it executes |
| Conservation.SharesLostWithoutABar | server/internal/backtest/service.go:422 | without that condition shares are lost: a concrete run buys a hundred and holds fifty |
| Conservation.NothingWaitingIsConsidered | server/internal/backtest/service.go:313-343 | under the same condition an instrument with something queued from an earlier session is not ranked on a rebalance session before it trades |
| BacktestEngine.Engine.ExecuteItem | server/internal/backtest/service.go:349-427 | one queued decision performed or refused: the new state is the model's |
| BacktestEngine.Engine.Settle | server/internal/backtest/service.go:386-426 | the priced order draws an identifier, then moves cash and the holding, or skips |
| BacktestEngine.Engine.Select | server/internal/backtest/service.go:280-293 | the first N scored instruments of the ranking |
| BacktestEngine.Engine.Enqueue | server/internal/backtest/service.go:301-311 | queues one execution for the next traded session with the next sequence number, or skips |
| BacktestEngine.Engine.QueueSales | server/internal/backtest/service.go:315-322 | sells, in identifier order, what is held, considered and not wanted |
| BacktestEngine.Engine.QueueEntries | server/internal/backtest/service.go:323-343 | buys what is wanted and not held; everything else ranked and not being sold is skipped with its reason |
| BacktestEngine.Engine.PlanSession | server/internal/backtest/service.go:273-345 | the whole plan as the model gives it, touching neither cash nor holdings |
| BacktestEngine.Engine.ExecuteDueItems | server/internal/backtest/service.go:196-202 | what is due executes in sequence order and leaves the queue |
| BacktestEngine.Engine.SimulateSession | server/internal/backtest/service.go:191-216 | one session takes the engine to the model's next state |
| BacktestEngine.Engine.Drain | server/internal/backtest/service.go:218-232 | whatever stayed queued becomes a skip, in session and sequence order |
| BacktestEngine.Engine.Simulate | server/internal/backtest/service.go:176-236 | the whole run ends in the model's state with an empty queue, so the trailing drain adds nothing |
| BacktestEngine.Backtest | server/internal/backtest/service.go:177-184 | a starting capital that does not parse, or is not positive, is refused; any other runs the whole simulation from that amount |
| BacktestEngine.NothingLeft | server/internal/backtest/service.go:218-220 | no run leaves anything queued when the calendar ends |
| BacktestEngine.RunInOrder | server/internal/backtest/service.go:198 | every queue is in sequence order, so sorting the due items changes nothing |
| BacktestEngine.FullSelectionStays | server/internal/backtest/service.go:285-293 | stopping at N selects what reading the whole ranking would |
| CashEquity.OnlyACostlySaleOverdraws | server/internal/backtest/service.go:386-419 | every purchase leaves the cash non-negative; cash falls at a sale exactly when its costs exceed its consideration; and cash that was not below zero goes below it exactly at a sale whose costs exceed its consideration by more than there is |
| Overdraft.RunOverdraws | server/internal/backtest/service.go:386-419 | such a run exists: a purchase empties the cash, and the sale's brokerage minimum exceeds its consideration, so the run ends one below zero |
| BacktestEngine.Portfolio.HeldOrder | server/internal/backtest/portfolio.go:32-39 | every held instrument once, in the one ascending order, whatever order the map gives: the keys are collected, then sorted in place of the library's sort |
| Ordering.SortAscending | server/internal/backtest/portfolio.go:37-38 | the sort by insertion gives the one ascending sequence of those elements |
| Ordering.OneOrder | server/internal/backtest/portfolio.go:32-38 | there is only one ascending sequence of a set's elements, so the order does not depend on the map |
| Lookups.MarkMeans | server/internal/backtest/portfolio.go:54-80 | a holding is valued exactly when some session prices it and has a rate; then the price is that session's close and the value price times quantity, rounded half to even, converted at that session's rate and rounded half to even again; without a price the reason is the price, otherwise the rate |
| BacktestEngine.Engine.ValueBook | server/internal/backtest/portfolio.go:54-92 | one row a holding, their sum, and whether all could be valued |
| CashEquity.BooksBalance | server/internal/backtest/portfolio.go:54-105 | at every point of every run cash is the starting capital plus every cash effect; each recorded session states that session's cash, and a total that is cash plus its own position rows, withheld exactly when one of them is unvalued |
| FeatureHistory.NewHistory | server/internal/features/window.go:46-75 | the index, slots, run starts and first bar it builds describe the bars aligned to the calendar; the last bar of a date wins, bars on other dates are ignored |
| FeatureHistory.BarOnMeans | server/internal/features/window.go:46-60 | a date's bar is the last one given with that date, and none only if none was given |
| FeatureHistory.FindRuns | server/internal/features/window.go:60-73 | each run start is where the gap-free run containing the session begins |
| FeatureHistory.Window | server/internal/features/window.go:94-111 | two comparisons return the bars exactly when every session of the window has one, and otherwise the right one of the two reasons, or nothing at all without a bar of its own |
| FeatureRuns.WindowDates | server/internal/features/window.go:106-110 | a satisfied window has its n bars dated by its n sessions |
| FeatureHistory.AdjustedCopy | server/internal/features/adjustment.go:13-30 | dividing a copy in place, split by split, gives each bar divided by exactly the splits gone ex by the date and after it |
| FeatureHistory.MemberHistory.AdjustedAt | server/internal/features/service.go:75-91 | for any order of queries against the cache, the view returned is the history adjusted by all splits as of that session |
| FeatureHistory.AdjustedByCount | server/internal/features/service.go:75-91 | sessions with as many splits behind them see the same adjusted history, which is what lets the cache be keyed by that count |
| FeatureRows.AdjustMeans | server/internal/features/adjustment.go:9-30 | an adjusted bar is the stored one with each price divided, in order, by exactly the ratios of the splits gone ex after it and by the date, zero ratios left out |
| FeatureRows.RowMeans | server/internal/features/service.go:541-584 | a full row, from the stored bars alone: where every session of the window has one, the formula of those bars, raw or adjusted as of the row's session as the definition asks, and of the composites of the window's sessions from the second on; else too little history if nothing is stored by the window's first session, else a gap |
| FeatureRows.RowsOfFull | server/internal/features/service.go:537-546 | there is a row for every active definition at every session with a bar, and no other |
| FeatureStore.RowFor | server/internal/features/service.go:545-584 | one row is the definition applied to its window on its own basis, the reason there is none, or a result that cannot be stored |
| FeatureStore.RowsForSession | server/internal/features/service.go:545-585 | every listed definition has one row at the session; it fails exactly when one of them cannot be stored |
| FeatureStore.RowsFor | server/internal/features/service.go:533-588 | the rows are those of every listed definition at every stored session in the range; it fails exactly when one of them cannot be stored |
| FeatureStore.ComputeInstrument | server/internal/features/service.go:457-493 | an instrument's share of a run: skipped without bars, failed with its store untouched exactly when some row cannot be stored, else the store has its scope rewritten and nothing else changed |
| FeatureService.ComputeIncremental | server/internal/features/service.go:204-269 | a whole incremental run: nothing changes if nothing was touched; else each member's rows are what its scope makes of them, or stay if it has none or fails, and the composite is rewritten over its clipped range |
| FeatureService.RunIsFull | server/internal/features/service.go:279-330 | such a run over full rows and a full composite leaves all of them full over the new bars, if and only if every touched member's opening is kept and each session the composite lost lies between two it still has; given scopes that cover the composite's readers, and rows that can be stored |
| FeatureService.PricedRunIsFull | server/internal/features/service.go:279-330 | with positive closes, and scopes that reach every change on the calendars, it is full if and only if every touched member's opening is kept |
| FeatureService.UntouchedRunIsFull | server/internal/features/service.go:210-212 | a run with nothing touched does nothing, and what it leaves is full over the new bars too |
| FeatureService.RunTouchesOnly | server/internal/features/service.go:279-330 | an incremental run changes a member's rows only within its reach, and an untouched member's only of definitions that read the composite; and the composite only within the range it writes |
| FeatureService.SameSpanIsReady | server/internal/features/service.go:285-330 | imports meeting all of it exist: any members on any one calendar, touched on the same sessions |
| FeatureService.ComputeFull | server/internal/features/service.go:218-268 | a full run: the composite written over its whole series, then each member over all it has stored with every active definition |
| FeatureService.FullRunIsFull | server/internal/features/service.go:271-277 | a full run leaves every row and the composite full, whatever was stored before, if and only if no stored row lies outside its member's bars and each session the composite lost lies between two it still has |
| FeatureService.FullRunAfterImport | server/internal/features/service.go:223-227 | after any import of bars over full rows, with defined returns, a full run leaves everything full |
| FeatureScopes.Span | server/internal/features/service.go:302-306 | the least and greatest of the touched sessions |
| FeatureScopes.TouchedBounds | server/internal/features/service.go:291-299 | the least and greatest touched session over all instruments, or none if nothing was touched |
| FeatureScopes.LongestWindow | server/internal/features/service.go:286-290 | the longest window of a list, zero for none |
| FeatureScopes.ScopeOfMember | server/internal/features/service.go:301-327 | a touched member gets every definition over its own span and reach; any other only the composite's readers over theirs, clipped to its bars; none without bars |
| FeatureScopes.IncrementalScopes | server/internal/features/service.go:285-330 | the touched bounds and both longest windows are worked out, then every member has its scope or none, in order, and a composite range reaching every touched member's reach |
| FeatureSeries.ContributionOf | server/internal/features/service.go:382-399 | a member counts at a session with a bar; its return needs the session before and a defined quotient |
| FeatureSeries.CollectMember | server/internal/features/service.go:382-401 | one member's returns are added to their sessions and to no others |
| FeatureSeries.ComputeComposite | server/internal/features/service.go:376-424 | for members on any calendars the collected series is the composite of every session some member counts at, from that session's contributors alone; empty when no composite is published |
| FeatureRows.SeriesMeans | server/internal/features/service.go:376-424 | the composite of a session, from the stored bars alone: the mean of the returns its members made from their own session before, both closes adjusted as of the session; a value exactly where some member has a bar, and a return unless it had no bar to return from |
| FeatureRows.ContributionMeans | server/internal/features/service.go:382-401 | and so each member's part in it |
| FeatureSeries.CompositeStore.Stage | server/internal/features/service.go:425-442 | the write range is clipped to the series' own sessions and nothing is written when that leaves nothing |
| FeatureRuns.CellKept | server/internal/features/service.go:545-584 | a row is what it was if its window was untouched and starts past the first stored bar or before every touched date, and, for a reader, the composite it reads did not change |
| FeatureRuns.HistoryKept | server/internal/features/service.go:545-555 | for such a start, whether anything is stored by it does not change, so neither does the reason given |
| FeatureRuns.IncrementalIsFull | server/internal/features/service.go:285-330 | for definitions that do not read the composite, rewriting only the incremental scope over a full pass of the old bars gives exactly the full pass over the new, values and reasons alike, if and only if no stored session past the reach has a window starting before the first bar stored before |
| FeatureRuns.TouchedRewriteIsFull | server/internal/features/service.go:301-310 | the same equivalence for a touched member with readers whose composite reads alike outside its scope |
| FeatureRuns.OpeningLeavesStale | server/internal/features/service.go:301-310 | every row past the reach whose window starts before the first bar stored before keeps "insufficient history" where a full pass says "gap" |
| FeatureRuns.BackfillKeepsOpening | server/internal/features/service.go:301-310 | the condition holds when the last touched session is at or past the first stored bar, or just before it as in a contiguous backfill |
| FeatureRuns.EarlierBarNeedsAFullPass | server/internal/features/service.go:301-310 | an import that fails it: a concrete bar leaves "insufficient history" where a full pass says "gap" |
| FeatureRuns.OrdinaryImport | server/internal/features/service.go:285-330 | the conditions the incremental theorems put on an import are met: a bar arriving on the session after the only stored one |
| FeatureComposite.SeriesChangesNearTouched | server/internal/features/service.go:279-284 | over any calendars the composite of a session changes only if that session or the one before it, on some member's calendar, was touched for that member |
| FeatureComposite.CompositeRewriteIsFull | server/internal/features/service.go:428-442 | rewriting the composite from the earliest touched session to a reach taking in the one after each member's last, clipped to the new series, gives the full series if and only if each session it lost lies between two it still has |
| FeatureComposite.NoSessionIsLost | server/internal/features/service.go:376-424 | an import loses the composite no session while returns are defined, so the clipped rewrite is full |
| FeatureComposite.PricedReturns | server/internal/features/returns.go:7-13 | returns are defined while every stored close has a property, such as being positive, that split division keeps and a first close needs |
| FeatureComposite.OtherRewriteIsFull | server/internal/features/service.go:318-327 | an untouched member needs only its composite readers rewritten, over a range covering every row that reads a changed session |
| FeatureComposite.UniverseIncrementalIsFull | server/internal/features/service.go:285-330 | for scopes that cover the readers of the composite as they stand: incremental equals full for a member's rows if and only if its opening is kept |
| FeatureReach.ReachesCovers | server/internal/features/service.go:279-327 | a scope covers its readers if it reaches every stored session at which the longest reader sees a change; that is read off the members' calendars and the touched dates alone |
| FeatureReach.NearChangesAreReached | server/internal/features/service.go:301-324 | a guard on the dates: for an untouched member the latest touched date is one of its sessions and no change lies more than one of its sessions past it; for a touched one no change lies before its first nor, past its last, further than its longest window exceeds the longest reader's, and one |
| FeatureReach.ToTheLastBar | server/internal/features/service.go:301-310 | a touched member's scope that ends at its last bar reaches every change from its first touched date on |
| FeatureReach.SharedCalendarReaches | server/internal/features/service.go:279-327 | on one calendar an untouched member is always reached, and a touched one if it was touched first and its longest window takes its last as far as any reader's takes the latest |
| FeatureReach.ReachedIncrementalIsFull | server/internal/features/service.go:285-330 | so for members on their own calendars, touched on their own dates, incremental equals full for a reached member's rows if and only if its opening is kept |
| FeatureReach.AlwaysFullExactly | server/internal/features/service.go:285-330 | for given calendars and touched dates a member's incremental rows are the full ones, whatever the bars and the definitions and with its opening kept, if and only if its scope reaches every session at which the longest reader can see a change |
| FeatureReach.UnreachedLeavesStale | server/internal/features/service.go:301-324 | the row that shows it: over any calendars and touched dates, at any session not reached, a reader's row is left stale |
| FeatureReach.DistantImportLeavesStale | server/internal/features/service.go:301-310 | a concrete import on one calendar: a member touched on the second of four sessions, another up to the fourth, and the first one's row of the fourth is stale |
| FeatureReach.HolidayLeavesStale | server/internal/features/service.go:318-324 | a concrete import on two: the touched day is a holiday of the untouched member's exchange, its scope ends on that day, and its row of the next session is stale |
| FeatureStore.ValueStore.WriteValues | server/internal/features/repository.go:489-535 | the range's rows of the listed definitions, or of all when none is listed, are replaced by the rows given; the rest stay |
| FeatureSeries.CompositeStore.WriteComposite | server/internal/features/repository.go:379-408 | the range's composite rows are replaced by the rows given; the rest stay |
| FeatureRuns.OtherDefinitionsSurvive | server/internal/features/repository.go:493-508 | a rewrite of some definitions leaves the others' rows in its range exactly when it lists at least one: an empty list clears them all |
| FeatureRuns.RewriteCompletes | server/internal/features/repository.go:485-535 | delete then insert over a range turns one full table into another if nothing outside the range changed |
| FeatureCalendar.AffectedRange | server/internal/features/incremental.go:12-31 | the loop ends at the session w-1 after the given one, at the last if there are fewer, and at the date itself when the calendar does not know it |
| FeatureCalendar.TradingExactly | server/internal/features/window.go:28-32 | the sessions of a calendar are its dates that are not closed, half days among them |
| FeatureRuns.ReachExactly | server/internal/features/incremental.go:12-31 | a session is within reach of another exactly when it is fewer than w positions past it; a date the calendar does not know reaches itself |
| FeatureRuns.BeyondReach | server/internal/features/incremental.go:12-31 | any session past that reach is at least w sessions later, so no window of w reaches back |
| CompositeMean.Composite | server/internal/features/composite.go:14-26 | the mean of the copied, sorted contributors is a function of the returns by instrument, with too few reported as undefined and counted |
| CompositeMean.OrderDoesNotMatter | server/internal/features/composite.go:11-13 | the order the contributors arrived in does not change the result, without any law of floating addition |
| CompositeMean.MeanInOrder | server/internal/features/composite.go:14-26 | the mean of returns by ascending identifier adds them from the first on, from zero, and divides once by their number; below the minimum there is none, and the number is stated either way |
| FeatureSeries.MeanBySession | server/internal/features/service.go:402-424 | the stored series holds, for each session, that mean of its contributors as gathered |
| CompositeMean.SortedIn | server/internal/features/composite.go:15-17 | sorting keeps every contributor and orders them by identifier |
| FeatureRounding.Round | server/internal/features/rounding.go:26-64 | on every canonical decimal text the digit buffer, its carry and its sign print the very string ParseDec then String print, with no negative zero |
| FeatureRounding.CarryInPlace | server/internal/features/rounding.go:44-56 | the carry loop adds one to the number the buffer writes, growing it by a leading one on all nines |
| FeatureRounding.NoNegativeZero | server/internal/features/rounding.go:57-64 | the sign is dropped exactly when every printed digit is zero |
| RateLimiter.Coarsen | server/internal/auth/member.go:258-266 | the hint is a positive multiple of a minute, at least what remains and less than a minute more |
| RateLimiter.LongestWindow | server/internal/auth/member.go:272-282 | the longest window of some lists |
| RateLimiter.ComputeMaxRateWindow | server/internal/auth/member.go:268-282 | for the three lists it is an hour |
| MemberThrottle.MemberLoginState.RecordFailure | server/internal/auth/member.go:172-196 | lock on the tenth in a day, block on the third in a row, else count one more |
| MemberThrottle.MemberLoginState.RecordSuccess | server/internal/auth/member.go:199-210 | a success clears the count and the block, unless locked |
| MemberThrottle.MemberLoginState.Unlock | server/internal/auth/member.go:213-223 | an unlock clears lock, block and count |
| MemberThrottle.EveryThirdBlocks | server/internal/auth/member.go:170-196 | over any run a counted wrong code is answered locked on the tenth in a day, else blocked on every third in a row, else failed |
| MemberThrottle.GrantedInTime | server/internal/auth/member.go:11-12 | a code lets somebody in within ten minutes of its issue or never |
| RateLimiter.RateTable.AllowRate | server/internal/auth/repository.go:896-943 | the loop over limits answers and records as the decision function says; a refused attempt is not recorded |
| RateLimiter.RateTable.PruneRateEvents | server/internal/auth/repository.go:946-953 | exactly the rows an hour old or older go |
| RateLimiter.JudgeMeans | server/internal/auth/repository.go:912-934 | allowed exactly when every limit is sound and below its ceiling; otherwise the answer comes from the first limit in order that is not: an error if it is unsound, else a refusal with a hint from its oldest attempt |
| RateLimiter.AllowedExactly | server/internal/auth/repository.go:896-943 | over any run whose prunes are not ahead of it, a request is let by if and only if its bucket is a digest of 32 bytes, it has limits, each sound, and of all attempts ever admitted for the bucket fewer than its ceiling lie within its window |
| RateLimiter.AttemptCounts | server/internal/auth/repository.go:935-943 | an attempt let by counts once in every window that reaches it and in no other; a refused one in none |
| RateLimiter.RecentMeans | server/internal/auth/repository.go:912-926 | the attempts counted are the bucket's rows after the window's start |
| RateLimiter.PrunedMeans | server/internal/auth/repository.go:945-953 | a prune drops the rows at or before its horizon and keeps every other as often as it was there |
| RateLimiter.WindowHolds | server/internal/auth/repository.go:894-943 | over any run, for any limit a bucket always carries, every half-open window of its length holds at most its ceiling of admitted attempts, whatever the order of the clocks, if each prune is behind the bucket's later requests or behind the window |
| RateLimiter.PruneKeepsDecisions | server/internal/auth/repository.go:945-953 | pruning changes no decision at or after the prune |
| RateLimiter.PruneForgetsForAnEarlierClock | server/internal/auth/repository.go:945-953 | for every prune and every earlier clock there are a stored attempt and a limit for which the decision is another |
| RateLimiter.InvisibleExactly | server/internal/auth/repository.go:945-953 | a prune changes no decision of a clock, whatever is stored and asked, if and only if the clock is at or after it |
| RateLimiter.EarlyPruneExceedsTheLimit | server/internal/auth/repository.go:894-953 | a concrete run with a prune ahead of a later request admits two attempts in a window whose limit is one |
| RateLimiter.PruningIsInvisible | server/internal/auth/repository.go:945-953 | over any run whose requests are not behind earlier prunes, a table never pruned admits exactly the same attempts |
| RateLimiter.HintClears | server/internal/auth/repository.go:927-934 | with ordered clocks, once the hint has passed with nothing else admitted, the limit that refused is below its ceiling |
| RateLimiter.TableRemembers | server/internal/auth/repository.go:936-953 | past every prune's horizon the table holds every admitted attempt |
| MemberThrottle.Account.IssueMemberChallenge | server/internal/auth/repository.go:558-618 | refused while locked or blocked; otherwise the outstanding code is superseded and one new active code stored |
| MemberCodes.IssueOutcome | server/internal/auth/repository.go:565-600 | an issue succeeds exactly for an active member neither locked nor blocked, with fresh identifiers and a digest no active code has, and a clock that can retire what is outstanding; otherwise it says why not |
| MemberCodes.IssueMeans | server/internal/auth/repository.go:582-618 | it changes something exactly then: one more active code, the outstanding ones superseded and one more email, and nothing of throttle, failures, sessions or log |
| MemberCodes.IssuedCodeLetsIn | server/internal/auth/repository.go:596-600 | from its issue for ten minutes that digest succeeds, and no other digest at any time, a superseded one included; whoever is let in has the session, and the code lets nobody in again |
| MemberThrottle.Account.VerifyMemberChallenge | server/internal/auth/repository.go:622-768 | the transaction's order of checks, its accounting and its roll-back leave the state and outcome the model gives |
| MemberCodes.RefusalOutcome | server/internal/auth/repository.go:630-690 | why a submission is not looked at: inactive, locked, blocked or no code ever issued; it then leaves everything as it was |
| MemberThrottle.Account.UnlockMember | server/internal/auth/repository.go:801-854 | refused unless the owner is active and the account is a member; else clears the throttle and the failures and retires the outstanding code |
| MemberCodes.UnlockMeans | server/internal/auth/repository.go:820-854 | an unlock clears the throttle, forgets the failures and retires every active code, and touches nothing else; or nothing at all with a clock before an active code |
| MemberThrottle.Account.MarkMemberCodeDelivery | server/internal/auth/repository.go:858-882 | a delivery still pending is settled, once; a failed one also retires its code if it is active |
| MemberCodes.DeliveryMeans | server/internal/auth/repository.go:858-882 | a failed delivery retires the active code it names, a pending email settles, and nothing else changes |
| MemberCodes.RevokeMeans | server/internal/auth/repository.go:1022-1090 | key rotation and deactivation retire every active code and nothing else |
| MemberThrottle.DeliveriesSettleOnce | server/internal/auth/repository.go:858-882 | over any run every delivery is pending and was never attempted, or is settled after exactly one attempt |
| MemberThrottle.StepSettles | server/internal/auth/repository.go:858-882 | and no transaction changes a settled delivery |
| MemberThrottle.StepSound | server/internal/auth/repository.go:558-882 | every transaction, at any clock, keeps one active code, the bounds on each code, the day's bound and the running count |
| MemberThrottle.AtMostOneActive | server/internal/auth/repository.go:556-600 | over any run at most one code is active |
| MemberThrottle.CodeUse | server/internal/auth/repository.go:689-763 | over any run a code lets somebody in at most once and faces at most three counted wrong codes while active |
| MemberThrottle.DayHoldsTen | server/internal/auth/repository.go:728-741 | any 24 hours hold at most ten wrong codes counted since the last unlock, for any order of clocks, and ten mean locked |
| MemberThrottle.SucceedsExactly | server/internal/auth/repository.go:689-726 | a submission succeeds exactly when the member is active, neither locked nor blocked, and the active code matches and is within its time |
| MemberThrottle.GrantedOrCounted | server/internal/auth/repository.go:728-763 | with a clock not before the code's creation a submission that is looked at is granted or counted |
| MemberThrottle.ThresholdRetires | server/internal/auth/repository.go:741-756 | crossing a threshold starts the block or lock and retires the outstanding code; below it nothing else moves |
| MemberThrottle.RefusedUnread | server/internal/auth/repository.go:644-664 | while locked or blocked a submission changes nothing and its answer does not depend on it |
| MemberThrottle.LockHolds | server/internal/auth/repository.go:644-653 | a lock lasts until an unlock: no code issued, no session, nothing counted |
| MemberThrottle.BlockHolds | server/internal/auth/repository.go:655-664 | a block lasts until its moment or an unlock, in the same sense |
| MemberThrottle.UnlockFrees | server/internal/auth/repository.go:799-854 | an unlock leaves no lock, block, count or active code, and grants no session |
| MemberThrottle.NewestIsStored | server/internal/auth/repository.go:674-681 | the challenge a failure is recorded against is a stored one, none created later |
| SigningKey.Converges | server/internal/auth/repository.go:956-991 | for any instances interleaving read, insert if absent and read again, with statements or answers lost anywhere, the row is written at most once and every success signs with the key whose fingerprint, source and generation it holds |
| SigningKey.StepSound | server/internal/auth/repository.go:962-1024 | each statement keeps the row once written and each instance's agreement with it |
| SigningKey.OneKey | server/internal/auth/repository.go:958-961 | if fingerprints tell keys apart, all successes hold one key |
| SigningKey.SucceedsIfCompatible | server/internal/auth/repository.go:962-991 | an instance answered throughout, with randomness if it needed it, succeeds exactly if its secret is the one the row was made with; the row never disappears |
| SigningKey.DoneInThree | server/internal/auth/repository.go:962-991 | an instance is done after at most three statements of its own |
| SigningKey.DecisionSound | server/internal/auth/signing_key.go:79-135 | against a stored row the decision succeeds exactly for a compatible secret and names the row's key; against none it provisions a row that names its own |
| SigningKey.OriginsHold | server/internal/auth/signing_key.go:79-135 | over any run a new row is some instance's own: its fresh random material with its fingerprint, or the fingerprint alone of its secret; who succeeds signs with its own secret or the stored material, as the row says; and who is refused is told the reason that holds |
| EventStream.ListAuthorized | server/internal/events/repository.go:71-108 | the first events, up to the limit, of what the audience may see after an id, in order; bounds out of range are refused |
| StreamPromises.BatchMeans | server/internal/events/repository.go:71-108 | a query returns, in order, exactly what the audience may see after an id and fewer than the limit are ahead of |
| StreamPromises.VisibleMeans | server/internal/events/repository.go:83-91 | what is visible: shared events, the user's own, and to an owner the owners', of the kinds listened for |
| EventStream.FetchSound | server/internal/api/events.go:84-98 | a query carries on where the last one written ended |
| EventStream.WriteSound | server/internal/api/events.go:89-103 | writing an event moves the cursor to it and keeps the wire a gap-free replay |
| EventStream.AcceptSound | server/internal/api/events.go:56-75 | a stream starts at the id a client names, or at the head of the log for one that names none |
| StreamPromises.ToldFromStart | server/internal/api/events.go:63-103 | once its stream is accepted a client is told exactly the visible events past the last it was told, or past the end of the log as it then was if it was told nothing, from the next one on |
| StreamPromises.NothingFromBefore | server/internal/api/events.go:68-77 | a client that was told nothing is never told an event that was in the log when its stream was accepted, whatever happens after |
| StreamPromises.NegativeOpensNothing | server/internal/api/events.go:168-178 | a negative id opens no stream |
| EventStream.CaughtUp | server/internal/api/events.go:84-119 | a stream with nothing left to query, write or read has delivered everything visible from its first event on |
| EventStream.AuthorizedEventStream.Start | src/services/events.ts:62-67 | starts once, and connects if online |
| EventStream.AuthorizedEventStream.Stop | src/services/events.ts:69-74 | closes the source and clears the timers, keeping the last id and what was seen |
| EventStream.AuthorizedEventStream.SetOnline | src/services/events.ts:76-89 | going offline closes; coming back connects if running |
| EventStream.AuthorizedEventStream.Connect | src/services/events.ts:91-95 | asks for the stream from the last delivered id, if running, online and without a source |
| EventStream.AuthorizedEventStream.OnError | src/services/events.ts:106-125 | a refusal stops for good; anything else sets the timer to try again |
| EventStream.AuthorizedEventStream.OnTimer | src/services/events.ts:119-122 | the timer reconnects |
| EventStream.AuthorizedEventStream.OnMessage | src/services/events.ts:128-146 | an event already seen, or not this viewer's, changes nothing; any other is remembered, moves the last id and is told once |
| EventStream.DeliveredIsPrefix | src/services/events.ts:62-146 | once one event was delivered, what was delivered is a gap-free, duplicate-free, in-order prefix of the visible log of the kinds listened for, from it on, across any drops, reconnects, stops and starts |
| EventStream.PrefixExactly | src/services/events.ts:102-105 | over any run what was delivered is a prefix of the whole authorized log, from the first event on, if and only if every authorized event from the first delivered to the last is of a kind listened for |
| EventStream.UnlistenedIsSkipped | src/services/events.ts:161-169 | a concrete run that fails it: of three shared events the second is of a kind not listened for, and the client is told of the first and third |
| EventStream.NeverSuppressed | src/services/events.ts:128-141 | an event on the wire is never turned away by the 200 remembered ids or by the viewer's own check |
| StreamPromises.ToldOnlyOwn | server/internal/events/repository.go:83-91 | over any run a client is told only such events |
| StreamPromises.TurnsAway | src/services/events.ts:134-138 | whatever it is sent, a client that knows who it is tells no owners' event to a member and no private event of anybody else |
| StreamPromises.MemoryIsTheTail | src/services/events.ts:139-141 | the ids remembered are those of the last two hundred events told, or of all |
| EventStream.StepSound | src/services/events.ts:62-146 | every action of either side keeps the invariant between log, wire and client |
| EventStream.NeverStranded | src/services/events.ts:106-122 | a running client that is online has a source or a timer that will ask for one |
| StreamPromises.OnlyWhileRunning | src/services/events.ts:69-95 | a client has a stream, or a timer for one, only while it runs and is online |
| StreamPromises.RefusalIsFinal | src/services/events.ts:106-125 | after a refusal or a stop nothing reconnects and nothing more is told until it is started again |
| Coalesce.Coalescer.AddKey | src/services/coalesce.ts:74-78 | notes the key and sees that a timer is set |
| Coalesce.Coalescer.OnTimer | src/services/coalesce.ts:39-57 | starts one request with everything pending, unless cancelled, empty or one is running |
| Coalesce.Coalescer.OnSettled | src/services/coalesce.ts:66-70 | the end of a request, either way, frees the slot and schedules what arrived meanwhile |
| Coalesce.Coalescer.CancelAll | src/services/coalesce.ts:79-84 | drops what is pending and the timer |
| Coalesce.OneInFlight | src/services/coalesce.ts:45-71 | at every point of every interleaving at most one request is running |
| Coalesce.NoKeyIsLost | src/services/coalesce.ts:37-85 | unless cancelled, a noted key is pending or was handed to exactly one request since its last add, and pending keys have a timer or a running request behind them |
| Coalesce.AddedIsHandedOver | src/services/coalesce.ts:37-78 | a key added before any cancel is noted and pending, and after one timer, the end of the running request and one more timer was handed to exactly one request |
| Coalesce.CancelStops | src/services/coalesce.ts:79-84 | after a cancel nothing is noted or started, whatever happens next |
| Coalesce.PendingIsHandedOver | src/services/coalesce.ts:37-71 | left alone, one timer, the end of the request and one more timer hand over everything |
| Coalesce.StepSound | src/services/coalesce.ts:37-85 | every action keeps each key's account |
| PercentText.MatchMeans | src/utils/decimal.ts:18 | the pattern accepts exactly an optional minus, digits and an optional point with digits, and reads its parts |
| PercentText.FormatKeepsValue | src/utils/decimal.ts:20-27 | formatDecimal writes the same number with at least the asked digits and no trailing zero beyond them |
| PercentText.FormatTwice | src/utils/decimal.ts:20-27 | formatting again changes nothing, on any text |
| PercentText.PercentIsRounding | src/utils/decimal.ts:42-64 | for every decimal text and digit count the output is the half-away-from-zero rounding of a hundred times the value, without redundant zeros and without a sign on zero |
| PercentText.PercentOfText | src/utils/decimal.ts:42-64 | so on the text itself: for every text the pattern accepts, what is printed is that rounding of its value |
| PercentText.OtherTextStays | src/utils/decimal.ts:20-43 | any other text is returned unchanged by both printers |
| PercentText.CutRounds | src/utils/decimal.ts:50-58 | cutting the digits and stepping up on five or more rounds half away from zero |
| PercentText.RoundedIsHalfAway | src/utils/decimal.ts:46-58 | the kept digits, carried, write that rounding |

## Left out

- Configuration reading beyond the starting capital, persistence of runs, logging, notification and cancellation by context: input and output.
- Performance measures over the finished run (returns, drawdown, volatility): floating point.
- Feature formulas, the two-session return and split division: parameters of the model, so every theorem holds for any of them. A formula that fails, panics or gives a non-finite or empty result is the one cell that cannot be stored; which of them it was is not modelled.
- Definition runs, and the worker pool: a definition run is the same per-instrument method with a list of definitions; instruments are taken one by one.
- FeatureService.ComputeIncremental: a store that refuses a write, and so fails the instrument or the run, is not modelled.
- FeatureService.RunIsFull: is for imports that change, add and never remove bars, with splits and calendars those of both passes, and for members whose last touched date is a session of theirs; a bar on any other date is rejected on import (server/internal/marketdata/validate.go:48-52). A row that cannot be stored keeps its old values in both kinds of run.
- FeatureRounding.Round: starts from the shortest decimal text of the float, as sign, integer digits and fraction digits; that text comes from the language's library.
- Trade identifiers: random in the source; here a draw either fails or not, by an arbitrary set of failing draws.
- Scores within a ranking: the model takes the ranking as given, with scored and unscored entries in its order.
- Weekly and monthly schedules compare calendar weeks and months, which the model takes as numbers with each day.
- Conservation.SharesConserved: trading between two rankings is enough and not necessary, since a decision may also be skipped; the exact condition is `Conservation.ConservedExactly`.
- Ordering.SortAscending: stands for the library's sort, with insertion in place of its algorithm.
- Text is a sequence of characters; byte lengths of characters outside ASCII are not modelled.
- Rotation of the signing key, which rewrites the row on purpose: the convergence theorems are about runs without it. Its effect on member codes is the revocation step of `MemberThrottle`.
- Owner sign-in, sessions after they are granted, passwords, sending of mail and the audit trail: no part of the modelled state.
- Collisions of code digests between members are an arbitrary flag of each issue; digests and fingerprints are otherwise uninterpreted.
- SigningKey.OneKey: assumes fingerprints tell keys apart, which the keyed digest gives only up to collisions; `SigningKey.Converges` does not assume it.
- RateLimiter.WindowHolds: needs each prune to be behind the bucket's later requests or behind the window; `RateLimiter.EarlyPruneExceedsTheLimit` shows why.
- MemberThrottle.GrantedOrCounted: needs a clock not before the code's creation, because the table's own constraints then refuse the transaction and nothing of it is stored.
- EventStream.DeliveredIsPrefix: is about the kinds listened for, one audience throughout and events committed in id order; before the first delivery a reconnecting client starts at the head again.
- Heartbeats, revalidation of an open stream, the stale indicator and malformed envelopes: none moves the resume point.
- HTTP routing, views, stores, wire mapping, configuration and the market data, portfolio, risk, paper and notification services.
