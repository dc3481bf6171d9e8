# Track-record enclave: a verified model of its ledgers, gates and sessions

The enclave reads trading accounts from brokers and exchanges and turns what it reads into a track
record. A deposit that is missed becomes performance, a page that is dropped becomes a wrong
history, a retry too many locks a token. This project models the code where such mistakes would
be made and proves what it promises, for every ledger, every run and every interleaving.

Money is `real`, time is an integer number of nanoseconds or milliseconds. A remote venue is a function
parameter that also takes the number of the request, so that it may answer the same question
differently each time; what it must do to deserve trust is an antecedent of the contract
(`Honest...`), never a precondition, so each reader is also specified against a venue that lies.

| file | what it models |
|---|---|
| `Common.dfy`, `Sorting.dfy` | instants and UTC days, results, decimals, prices; stable sorting and string order |
| `BybitExecutions.dfy`, `BinanceFills.dfy` | fill readers that halve their range until it fits a page |
| `CTraderDeals.dfy` | the deal walk by cursor, with pages in any order |
| `CTraderLedger.dfy`, `CTraderHistory.dfy` | reset-aware cash flows and the rebuilt daily history |
| `CTraderSession.dfy` | the socket, its background loops and the token flag, step by step |
| `FlexStatement.dfy`, `FlexDays.dfy`, `FlexMerge.dfy` | per-day IBKR statements folded into one |
| `SegmentNav.dfy`, `CashReportTransfers.dfy`, `PlainNumbers.dfy` | two account segments consolidated, and numbers written without rounding |
| `FlexGate.dfy` | pacing, backoff, daily budget and lock of an IBKR Flex token |
| `BinanceMatching.dfy`, `WalletPerimeter.dfy`, `BitgetPairing.dfy` | transfer matching and what crosses the measured wallets |
| `IGSession.dfy`, `IGDecimal.dfy` | IG session generations under concurrent requests; locale amounts |
| `ConnectorCache.dfy` | the LRU connector cache and its release discipline |
| `Allowlist.dfy`, `OperatorKey.dfy` | the canonical form that signer and verifier share; the operator key |

Code that changes things in place is a class or a method with loops, proved equal to a function of
the old state; what the source promises is then proved of that function over whole runs. Several
promises hold only under a condition. Each of those has a concrete counterexample and, where the condition
is known exactly, an if-and-only-if: the backoff is not monotone; an emptied cTrader account can turn a
deposit into a withdrawal; requests in flight together escape the daily Flex budget, one for one; a zero
Binance row separates the two matching passes; amounts at the edge of the tolerance are booked twice; three
decimals read as thousands; a split cache lookup releases twice or hands out a released connector, and a
connector put again under the key evicted for it is released while cached; two requesters on one cTrader
instance can mark an unauthenticated socket as authenticated, and one's refresh can lose the other's
invalidation; and two entries under one measurement make the canonical payload depend on their order.

Where the documentation and the code differ, the model follows the code: the Flex wait is documented as capped
at two hours but reaches 128 minutes after the seventh failure, and the comment on the connector cache
promises one release per connector, which the split lookup does not give.

## Model

| member | source | states |
|---|---|---|
| `BybitExecutions.ExecReader.Add` | internal/connector/bybit.go:335-347 | rows are kept once per key, only rows of the page are kept, and the count returned is how many were new |
| `BybitExecutions.ExecReader.AskPage` | internal/connector/bybit.go:299-332 | each page is one more request, for the range in whole milliseconds and the cursor given |
| `BybitExecutions.ExecReader.FollowPage` | internal/connector/bybit.go:284-295 | one page behind a cursor: its rows are merged and its cursor followed, and a page that adds nothing and still goes on is a stall |
| `BybitExecutions.ExecReader.Read` | internal/connector/bybit.go:257-274 | against an honest venue a pass covers every row of the range and adds no row outside it; every failure is explained by the range; the recursion ends on end − start |
| `BybitExecutions.ExecReader.ReadHalves` | internal/connector/bybit.go:266-272 | both halves, sharing their midpoint, make up the range, and the failure of either is explained by it |
| `BybitExecutions.ExecReader.Follow` | internal/connector/bybit.go:278-297 | a range too narrow to split is paged to its end; a failure means a refused page, or a second that fills a page and goes on behind it, with at least 49 rows when the pages ran out |
| `BybitExecutions.Executions` | internal/connector/bybit.go:238-250 | success over start < end returns rows of the range only, and for every ledger row of the range a row equal to it in its seven identifying fields, no two rows equal in them; a failure is a refused page or an overfull second inside the range and within a week, so a venue that refuses nothing there and whose seconds fit a page is always read |
| `BybitExecutions.KeyTellsRowsApart` | internal/connector/bybit.go:219-226 | two rows have one key exactly when they agree in id, time, symbol, type, side, quantity and fee |
| `BybitExecutions.EveryRowIsReturned` | internal/connector/bybit.go:219-250 | in the rows' own fields: every row asked for is returned, and none twice |
| `BybitExecutions.BothLegsAreReturned` | internal/connector/bybit.go:219-226 | two legs that differ in any of those fields, such as the two of a hedge-mode funding settlement, are returned side by side |
| `BybitExecutions.DistinctLedgerKeysGiveTheLedger` | internal/connector/bybit.go:219-226 | when the venue never gives two rows one key, the rows returned are exactly the ledger's range |
| `BinanceFills.PageSettlesRange` | internal/connector/binance.go:798-812 | a page is short exactly when its range fits a page |
| `BinanceFills.HalvesCover` | internal/connector/binance.go:803-809 | the two halves, sharing their midpoint, make up the range |
| `BinanceFills.FillReader.Add` | internal/connector/binance.go:813-818 | fills are kept once per id and only fills of the page are kept |
| `BinanceFills.FillReader.Read` | internal/connector/binance.go:797-820 | against an honest venue a pass covers the range exactly when it is readable, and the over-full error is raised only when it is not; every failure is a refused page or a full second |
| `BinanceFills.FillReader.ReadHalves` | internal/connector/binance.go:803-809 | both halves are read, and the failure of either is the failure of the whole |
| `BinanceFills.UnreadableHasAFullSecond` | internal/connector/binance.go:773-793 | a range that cannot be read contains a second or less with a full page of fills |
| `BinanceFills.FuturesFills` | internal/connector/binance.go:794-852 | success returns exactly the set of fills in the range, no id twice; a failure is a refused page or a full page of a second or less, inside the range and within a week, where an honest ledger has a thousand fills; a venue that does neither is always read |
| `CTraderDeals.NewestExecution` | internal/connector/ctrader.go:2194-2202 | the latest execution time on the page, whatever its order |
| `CTraderDeals.AppendUnseenDeals` | internal/connector/ctrader.go:2208-2219 | deals are appended once per id, and the count is how many were new |
| `CTraderDeals.PageAdvances` | internal/connector/ctrader.go:2161-2180 | merging an honest page moves the frontier of what is complete to the page's newest millisecond |
| `CTraderDeals.PageIsMerged` | internal/connector/ctrader.go:2161-2166 | a page merged by deal id is merged deal by deal, and a last page completes the window |
| `CTraderDeals.PageMoves` | internal/connector/ctrader.go:2167-2180 | the cursor moves to a deal's millisecond, never back, and when it moves on a deal was new |
| `CTraderDeals.GetAllDeals` | internal/connector/ctrader.go:2129-2192 | success is exactly the window's deals, each once, for any page order and any number of deals per millisecond; a refusal is that of one of the walk's pages; a truncated walk means as many deals as pages allowed, or one of its pages stuck on the start or on a deal's millisecond |
| `CTraderLedger.AmountIsChange` | internal/connector/ctrader.go:1909-1919 | a capital entry signed as its type says is booked at its own change |
| `CTraderLedger.AmountIsDirected` | internal/connector/ctrader.go:1847-1919 | type by type: an amount is the size of the change in minor units, positive exactly for the types that bring capital in, and absent for every other type and for no change |
| `CTraderLedger.MoneyDivisorIs` | internal/connector/ctrader.go:1886-1893 | a power of ten for every digit, hundredths when none are given |
| `CTraderLedger.DepositIsNetIff` | internal/connector/ctrader.go:2372-2387 | a deposit is taken net of the balance believed in exactly when that is above 1.0 and more than twice what the ledger puts before it; every other amount stands |
| `CTraderLedger.EntrySlack` | internal/connector/ctrader.go:2372-2387 | what one entry books beyond the change of the reported balance, exactly: the balance a reset at or below the floor discards, less the balance believed in at a misread deposit, else nothing |
| `CTraderLedger.DealsAreJumps` | internal/connector/ctrader.go:2331-2334 | passing deals moves the reported balance by exactly the recorded jumps and books nothing |
| `CTraderLedger.DealIsPassedIff` | internal/connector/ctrader.go:2329-2334 | in time order an entry is read once exactly the deals strictly before it have been passed |
| `CTraderLedger.BelievedIsTheLatest` | internal/connector/ctrader.go:2329-2347 | the balance believed in is that of the last deal passed since the entry before, else the one that entry reports, unless that is zero |
| `CTraderLedger.ResetAwareIdentity` | internal/connector/ctrader.go:2308-2387 | over every ledger of balances that are not negative, flows booked plus the jumps of deals and other entries are the reported balance, plus what small resets keep, less what misread deposits lose |
| `CTraderLedger.KeptIsSmall` | internal/connector/ctrader.go:2372-2387 | what resets keep is at most 1.0 each |
| `CTraderLedger.IdentityHoldsIff` | internal/connector/ctrader.go:2308-2387 | the identity holds within 1.0 per reset exactly when no more is lost than kept: always when no deposit is misread, and without resets only then |
| `CTraderLedger.PositiveBalancesReachTheBalance` | internal/connector/ctrader.go:2308-2387 | with positive balances no deposit is misread, and the identity holds |
| `CTraderLedger.ZeroBalanceBreaksTheIdentity` | internal/connector/ctrader.go:2345-2347 | an account withdrawn to zero and funded again books the deposit of 500 as a withdrawal of 500 |
| `CTraderLedger.RunningIsTruthUnlessEmpty` | internal/connector/ctrader.go:2331-2347 | the balance believed in is the balance reported unless an entry left it at exactly zero |
| `CTraderLedger.ConsistentDepositIsBookedIff` | internal/connector/ctrader.go:2372-2387 | a deposit that continues the reported balance is booked as itself exactly when it does not follow an emptying still believed above the floor |
| `CTraderHistory.SortPoints` | internal/connector/ctrader.go:2280-2290 | balance samples in time order, a permutation of the input |
| `CTraderHistory.SortEntries` | internal/connector/ctrader.go:2320-2324 | ledger entries in time order, a permutation of the input |
| `CTraderHistory.SampleIs` | internal/connector/ctrader.go:2280-2289 | a sample is the reported balance at its own time, in the closing detail's digits or else the deal's |
| `CTraderHistory.DealPointsAre` | internal/connector/ctrader.go:2392-2409 | every closing deal is sampled, in order, and nothing else |
| `CTraderHistory.BalanceAt` | internal/connector/ctrader.go:2294-2303 | the balance of a latest sample strictly before the instant, 0 when there is none |
| `CTraderHistory.SkipDeals` | internal/connector/ctrader.go:2331-2334 | walks the deals before an entry exactly as the specification of the walk does |
| `CTraderHistory.CashflowsByDay` | internal/connector/ctrader.go:2320-2366 | each day's deposits and withdrawals are the sums of its reset-aware flows by sign |
| `CTraderHistory.DayFlowIs` | internal/connector/ctrader.go:2352-2364 | a day's deposits less its withdrawals are what it booked, their sum what it moved either way, and neither is negative |
| `CTraderHistory.TradesByDay` | internal/connector/ctrader.go:2411-2436 | each day's count, volume, fees and sides are those of its filled deals |
| `CTraderHistory.DealAmounts` | internal/connector/ctrader.go:626-652 | volume in hundredths of a unit at the deal's dollar rate, or its price without one; a charge is a positive fee |
| `CTraderHistory.DayTradesAre` | internal/connector/ctrader.go:2411-2436 | a day's figures are sums over the deals filled in its 24 hours, buys on the long side and sells on the short one |
| `CTraderHistory.SidesAddUp` | internal/connector/ctrader.go:2427-2433 | long and short trades and volumes make up the day's |
| `CTraderHistory.RowsCountTrades` | internal/connector/ctrader.go:2468-2476 | right rows of consecutive days count every deal filled on the days before theirs |
| `CTraderHistory.BuildRow` | internal/connector/ctrader.go:2459-2477 | a row's balance is that of a latest sample before its midnight, never the value before inception, and it carries the previous day's flows and trades |
| `CTraderHistory.RowsBetween` | internal/connector/ctrader.go:2459-2477 | one row per day from first to last, no gap, netting to what was booked on the days before |
| `CTraderHistory.RowsNet` | internal/connector/ctrader.go:2448-2480 | right rows of consecutive days conserve the flows booked on the days before theirs |
| `CTraderHistory.BuildRows` | internal/connector/ctrader.go:2448-2480 | from the day behind the first sample to yesterday, the rows are right, their flows are all that was booked up to two days ago, and their trades all that were filled since the first sample's day |
| `CTraderHistory.BuildHistory` | internal/connector/ctrader.go:2448-2480 | the same for any deals and entries in any order: one row per day, carry-forward balances, deposits minus withdrawals equal to every amount booked at least two days before today, and no trade lost in between |
| `CTraderSession.Connector.InstallSocket` | internal/connector/ctrader.go:1428-1445 | a dialled socket becomes current with cleared flags and its own stop channel, unless one is current |
| `CTraderSession.Connector.NoteAuthenticated` | internal/connector/ctrader.go:1167-1170 | recording an answer sets that flag and nothing else |
| `CTraderSession.Connector.DropSocket` | internal/connector/ctrader.go:1714-1731 | the drop clears socket and flags and hands the stop channel to exactly one closer |
| `CTraderSession.Connector.NoteDisconnected` | internal/connector/ctrader.go:1685-1705 | a socket already replaced changes nothing; the current one is dropped |
| `CTraderSession.Connector.NoteInvalidated` | internal/connector/ctrader.go:1537-1547 | only the current socket raises the token flag |
| `CTraderSession.Connector.ForgetInvalidation` | internal/connector/ctrader.go:1271-1274 | the end of a refresh clears the flag and nothing else |
| `CTraderSession.UndisturbedRequesterConnects` | internal/connector/ctrader.go:1141-1211 | from any state without a socket, an undisturbed requester ends with a new one on which the application and its account are authenticated as granted |
| `CTraderSession.ConnectionEndsIff` | internal/connector/ctrader.go:1685-1731 | a drop, or the loss of the current socket, and no other step, leaves no socket, clears its flags and hands out its channel |
| `CTraderSession.FlagAndChannelSteps` | internal/connector/ctrader.go:1537-1547 | the token flag rises exactly with an invalidation on the current socket and falls exactly at the end of a refresh; a channel is closed exactly by the one who took it |
| `CTraderSession.EveryChannelIsClosedOnce` | internal/connector/ctrader.go:1685-1731 | in every interleaving, any number of requesters: a stop channel is closed at most once, never while its socket is current, and none is lost |
| `CTraderSession.OnlyALaterSocketInvalidates` | internal/connector/ctrader.go:1267-1274 | in every interleaving, a raised token flag was raised by a socket installed after the last completed refresh dropped its session |
| `CTraderSession.QuietRunsAreAuthentic` | internal/connector/ctrader.go:1141-1211 | as long as no socket goes in while an authentication is in flight, flags on a live socket are that socket's own |
| `CTraderSession.SoloFlagsAreAuthentic` | internal/connector/ctrader.go:1141-1211 | one requester with the loops of every socket: app and account flags on a live socket mean that very socket was authenticated |
| `CTraderSession.SoloRefreshErasesNothingNew` | internal/connector/ctrader.go:1256-1274 | one requester: the flag cleared after a refresh was raised by a dropped socket |
| `CTraderSession.StepIsSafeIffUndisturbed` | internal/connector/ctrader.go:1141-1211 | any number of requesters: a step keeps the flags true, whichever answers are recorded after it, exactly when it puts no socket in while an authentication is in flight |
| `CTraderSession.ForgingTail` | internal/connector/ctrader.go:1167-1210 | from any run, a socket put in while an authentication is in flight is marked authenticated without being so within two steps |
| `CTraderSession.TwoRequestersForgeAFlag` | internal/connector/ctrader.go:1167-1170 | two requesters: a run that marks a socket authenticated that never was |
| `CTraderSession.TwoRequestersLoseAnInvalidation` | internal/connector/ctrader.go:1271-1274 | two requesters: a run whose refresh clears the flag of the other's new socket |
| `CTraderSession.RefreshLosesIff` | internal/connector/ctrader.go:1267-1274 | left to the background loops, a refresh between its drop and its clearing comes to lose an event of a new socket exactly when it has already or a socket is current; with none installed since the drop neither is the case |
| `CTraderSession.AnotherRequesterCanLoseIt` | internal/connector/ctrader.go:1256-1274 | with another requester it always can, within three steps that are not its own |
| `FlexGate.FlexTokenWait` | internal/connector/ibkr.go:213-222 | the doubling loop gives 2^f minutes up to f = 7 and 120 minutes after |
| `FlexGate.BackoffIsNotMonotone` | internal/connector/ibkr.go:213-222 | the wait grows to 128 minutes at the seventh failure and falls to the cap at the eighth |
| `FlexGate.WaitIs` | internal/connector/ibkr.go:213-222 | the waits in seconds: 60, doubling to 7680 after seven failures, 7200 from the eighth on |
| `FlexGate.TokenTable.ClaimFlexToken` | internal/connector/ibkr.go:185-211 | a claim changes its token's entry only, by lock, budget and wait in that order |
| `FlexGate.TokenTable.NoteFlexOutcome` | internal/connector/ibkr.go:227-247 | an outcome changes its token's entry only, and nothing for a token never claimed |
| `FlexGate.GrantedIff` | internal/connector/ibkr.go:185-211 | a claim is granted exactly when the token is unlocked, fewer than six failures are booked on that UTC day and the wait since its last request has passed |
| `FlexGate.RefusalNames` | internal/connector/ibkr.go:185-211 | a refusal names a later instant: the end of the lock, else the next UTC day if the budget is spent, else the end of the wait |
| `FlexGate.GrantsArePaced` | internal/connector/ibkr.go:185-222 | in every run two grants are at least a minute apart |
| `FlexGate.BackoffHolds` | internal/connector/ibkr.go:185-247 | in every run a grant after f consecutive failures comes at least the wait for f after the last failure |
| `FlexGate.LockHolds` | internal/connector/ibkr.go:227-247 | in every run a 1025 blocks all grants until the next UTC day |
| `FlexGate.DailyBudgetHolds` | internal/connector/ibkr.go:185-247 | with one request in flight at a time, and refused claims at any time, at most six requests claimed on one UTC day fail |
| `FlexGate.FailuresAreBounded` | internal/connector/ibkr.go:185-247 | in every run the requests claimed on one UTC day that fail number at most five more than were ever in flight together |
| `FlexGate.BudgetHoldsIffOneAtATime` | internal/connector/ibkr.go:185-247 | six a day for every run with at most m in flight exactly when m is at most 1 |
| `FlexGate.OverlappingClaimsEscapeTheBudget` | internal/connector/ibkr.go:185-247 | the bound is reached: with m in flight, up to the 44 a day leaves room for, a run on one day in which five and m requests fail |
| `FlexGate.RefusalIsHonoured` | internal/connector/ibkr.go:185-211 | with no outcome in between, no claim before a refusal's retry time is granted |
| `FlexGate.TokenReopens` | internal/connector/ibkr.go:185-222 | after every run, a claim past the next UTC midnight and 128 minutes after the last request is granted |
| `FlexDays.ConsecutiveDays` | internal/connector/ibkr_statement.go:529-547 | returns the statements by period, or the refusal that the specification gives |
| `FlexStatement.FlexDayIff` | internal/connector/ibkr_statement.go:462-472 | a date is read exactly when eight digits are left without its dashes (or seven behind a plus), and as those |
| `FlexStatement.FlexDayReads` | internal/connector/ibkr_statement.go:462-472 | both ways of writing a date, with dashes and without, read as the same day |
| `FlexDays.DaysCompareAsNumbers` | internal/connector/ibkr_statement.go:538-546 | days written in digits are ordered as the numbers they spell, so as the calendar orders them |
| `Sorting.StringLeIsLexicographic` | internal/connector/ibkr_statement.go:538-546 | the order of strings is that of the first place where they differ, a prefix first |
| `FlexDays.DaysAreTheirOwn` | internal/connector/ibkr_statement.go:529-537 | every day is dated by its own statement's fromDate and toDate, in that order |
| `FlexDays.DaysSucceedIffDisjoint` | internal/connector/ibkr_statement.go:525-547 | a split is accepted exactly when every period is readable and no two meet; the days are then those periods, in order, each once |
| `FlexDays.DaysAreOrderFree` | internal/connector/ibkr_statement.go:525-547 | arrival order changes neither the days nor the refusal |
| `FlexMerge.Merger.AddRowsTo` | internal/connector/ibkr_statement.go:579-594 | rows of a section are added, undated Cash Report rows with the day's dates, unless an earlier day carried their key |
| `FlexMerge.Merger.AddNavRows` | internal/connector/ibkr_statement.go:556-577 | a later NAV row of a date replaces an earlier one |
| `FlexMerge.Merger.AddStatement` | internal/connector/ibkr_statement.go:556-577 | one day folds its sections in, in their order |
| `FlexMerge.MergeKeepsFirstDayCounts` | internal/connector/ibkr_statement.go:556-594 | outside NAV and Open Positions each row occurs as often as on the first day that carries it |
| `FlexMerge.FirstDayCountIsTheEarliest` | internal/connector/ibkr_statement.go:579-594 | that count is the count within the earliest day that has the row at all |
| `FlexMerge.NavIsLatest` | internal/connector/ibkr_statement.go:556-577 | the NAV row kept for a date is the latest statement's |
| `FlexMerge.BookIsLatest` | internal/connector/ibkr_statement.go:556-577 | Open Positions are the last book alone |
| `FlexMerge.SettleNav` | internal/connector/ibkr_statement.go:598-611 | every NAV date is written once, in strictly increasing order, and no other |
| `FlexMerge.MergeDailyStatements` | internal/connector/ibkr_statement.go:487-520 | the result is the written fold of the consecutive days, or their refusal |
| `FlexMerge.MergeIsOrderFree` | internal/connector/ibkr_statement.go:487-520 | the merged statement does not depend on the order the per-day statements arrived in |
| `FlexMerge.MergedStatementCounts` | internal/connector/ibkr_statement.go:487-624 | in the written statement every ordinary row occurs as often as on its earliest day, and Open Positions are the last book |
| `FlexMerge.UndatedCashRowsAreDated` | internal/connector/ibkr_statement.go:579-594 | in the written statement every undated Cash Report row of every day stands with that day's dates behind its own attributes, as often as its day reports it, unless an earlier day already reports it so dated |
| `FlexMerge.DatedByReads` | internal/connector/ibkr_statement.go:582-586 | such a row reads as that day's from fromDate to toDate, and every other attribute reads as reported |
| `FlexMerge.EqualUndatedRowsAreBothKept` | internal/connector/ibkr_statement.go:579-594 | two days that report the same undated row both keep it, as two different rows |
| `FlexMerge.DatedCashRowsStand` | internal/connector/ibkr_statement.go:579-594 | a Cash Report row with a date of its own stands as it is |
| `FlexMerge.OthersAreAsReported` | internal/connector/ibkr_statement.go:579-594 | outside the Cash Report the rows counted are those reported, untouched |
| `FlexMerge.MergedPeriod` | internal/connector/ibkr_statement.go:504-512 | the statement runs from the first day's start to the last day's end and is otherwise described as the last day is |
| `FlexMerge.MergedSections` | internal/connector/ibkr_statement.go:556-577 | one section for every name that any day has, with the attributes of the first that came |
| `FlexMerge.MergedNavIsLatest` | internal/connector/ibkr_statement.go:487-624 | the written NAV has one row per report date, strictly increasing, each from the latest statement carrying it, none missing |
| `SegmentNav.LatestOfSorted` | internal/connector/ibkr_statement.go:325-345 | sorting a segment by date does not change its last row on or before any date |
| `SegmentNav.LatestIsNewest` | internal/connector/ibkr_statement.go:346-366 | what a segment carries to a date is its newest row dated on or before it, the last listed of several, and nothing only when there is none |
| `SegmentNav.SumNavRows` | internal/connector/ibkr_statement.go:370-409 | the attribute loop computes the specified sum row, dated as told, or refuses mixed currencies |
| `SegmentNav.SumRowAdds` | internal/connector/ibkr_statement.go:370-409 | each amount of the row reads back as the sum of the amounts under its name, when decimals are written and read without rounding |
| `SegmentNav.SumRowKeepsText` | internal/connector/ibkr_statement.go:388-405 | the row carries its own date; under names that describe the account, and under any name with a value that is no amount, it carries the first carried row's value |
| `SegmentNav.SumRowShape` | internal/connector/ibkr_statement.go:370-409 | the row is named as the first carried one and has each of their attribute names once, and no other |
| `SegmentNav.TotalIsDecimal` | internal/connector/ibkr_statement.go:370-409 | sums of what is read are again numbers that can be written exactly |
| `PlainNumbers.PlainReadsBack` | internal/connector/ibkr_statement.go:388-405 | every decimal written out in full reads back as itself |
| `PlainNumbers.PlainNumbersAreExact` | internal/connector/ibkr_statement.go:388-405 | plain decimal reading and writing meets the premise of the amount and sweep results |
| `SegmentNav.Advance` | internal/connector/ibkr_statement.go:346-366 | a segment's pointer stops exactly at its first row dated later |
| `SegmentNav.GatherRows` | internal/connector/ibkr_statement.go:346-366 | the carried pointers yield each segment's last row on or before the date |
| `SegmentNav.SumDate` | internal/connector/ibkr_statement.go:346-366 | one date's row is the sum of the carried rows, and the pointers stay valid for later dates |
| `SegmentNav.SumSegmentNav` | internal/connector/ibkr_statement.go:325-366 | one row per date of the union, in order and carrying that date, each the sum of the carried rows; refused only when some date's sum is refused |
| `SegmentNav.ConsolidatedDates` | internal/connector/ibkr_statement.go:325-366 | the report dates of the consolidated rows are strictly increasing and exactly those of the segments' rows |
| `SegmentNav.ConsolidatedAmount` | internal/connector/ibkr_statement.go:325-409 | each parseable amount is the sum over segments of the value in the last row on or before the date, 0 before a segment begins |
| `SegmentNav.SummedIffNotMixed` | internal/connector/ibkr_statement.go:376-387 | a date's rows are refused exactly when a named currency differs from the first one named |
| `SegmentNav.SweptConsolidates` | internal/connector/ibkr_statement.go:325-409 | a sweep between the segments does not stop a date from being consolidated |
| `SegmentNav.SweepIsNeutralIff` | internal/connector/ibkr_statement.go:325-409 | a sweep leaves the amount read from a date's consolidated row unchanged exactly when both segments' carried rows show it or neither does |
| `SegmentNav.SameDaySweepIsNeutral` | internal/connector/ibkr_statement.go:325-409 | with rows on the sweep's day in both segments, the amount read from no date's consolidated row moves |
| `CashReportTransfers.DailyCashReportTransfers` | internal/connector/ibkr_statement.go:658-679 | each covered day's transfer is the sum of its rows; the deposit flag tells whether any row dates deposits |
| `CashReportTransfers.BookRow` | internal/connector/ibkr_statement.go:669-676 | one row's transfers, and its deposits where it has them, go to its day |
| `CashReportTransfers.CoveredDayIff` | internal/connector/ibkr_statement.go:660-668 | a row counts exactly as the base summary whose two dates read as one day, and on that day |
| `CashReportTransfers.RowFlowIs` | internal/connector/ibkr_statement.go:669-676 | a row moves its internal transfers plus its account transfers plus its deposits less withdrawals where listed; what does not parse moves nothing |
| `CashReportTransfers.SweptTotal` | internal/connector/ibkr_statement.go:658-679 | a sweep in the internal transfers of a row of each segment's report moves exactly the totals of the days those rows cover |
| `CashReportTransfers.SweepBooksNothingIff` | internal/connector/ibkr_statement.go:658-679 | a sweep changes no day's transfer exactly when both rows cover the same day, or none |
| `BinanceMatching.PairingIsGreedyMatching` | internal/connector/binance_subaccounts.go:79-146 | claimed rows inject into counterparts of the same coin, size and window, a counterpart is passed over only for serving an earlier row, and zero rows claim none where they are skipped |
| `BinanceMatching.SameTransferIff` | internal/connector/binance_subaccounts.go:135-146 | two moves are one transfer exactly when their coin is the same, they are at most ten minutes apart and their sizes differ by at most a hundred-millionth of the larger, or of 1 |
| `BinanceMatching.UnexplainedAre` | internal/connector/binance_subaccounts.go:79-100 | what is left over is every non-zero row that nothing explains, in order, and no other |
| `BinanceMatching.StrayBinanceMoves` | internal/connector/binance_subaccounts.go:79-100 | returns the non-zero rows without a counterpart, in order |
| `BinanceMatching.ClaimByCounterparts` | internal/connector/binance_subaccounts.go:109-116 | the rows marked are exactly those the universal transfers claim |
| `BinanceMatching.OrientBinanceSubMoves` | internal/connector/binance_subaccounts.go:109-133 | each sub-account move takes the sign of the first free row that explains it |
| `BinanceMatching.OrientationOnlyTurnsMoves` | internal/connector/binance_subaccounts.go:109-133 | orientation changes a quantity only, within tolerance, takes no row twice and none that a universal transfer claimed |
| `BinanceMatching.PassedOverRowsAreClaimed` | internal/connector/binance_subaccounts.go:117-133 | a matching row is passed over only when a universal transfer or an earlier move has claimed it |
| `BinanceMatching.ClaimsAgreeIffNoZeroRowClaimed` | internal/connector/binance_subaccounts.go:47-133 | the universal transfers claim the same rows in both passes, whatever is appended, exactly when no zero row is claimed |
| `BinanceMatching.PassesAgreeWithoutZeroMatches` | internal/connector/binance_subaccounts.go:47-133 | on the input: as long as no zero row matches a counterpart, both passes agree |
| `BinanceMatching.ZeroRowsCanDisagree` | internal/connector/binance_subaccounts.go:79-133 | a zero row and a transfer of a hundred-millionth separate the passes |
| `BinanceMatching.NoRowTakesALaterRowsMove` | internal/connector/binance_subaccounts.go:47-133 | where the tolerance separates the amounts, no row of stray detection takes the booked move that a later row turned |
| `BinanceMatching.UniversalRowsStayExplained` | internal/connector/binance_subaccounts.go:79-120 | a non-zero row a universal transfer claims in orientation is explained by a universal transfer in stray detection too, on every ledger |
| `BinanceMatching.ClaimedRowsAreNeverStray` | internal/connector/binance_subaccounts.go:47-75 | where the tolerance separates the amounts, a non-zero row that oriented a move or belongs to a universal transfer is never booked again as stray |
| `BinanceMatching.BorderlineAmountsAreBookedTwice` | internal/connector/binance_subaccounts.go:135-146 | any three amounts the tolerance does not separate make a ledger that books a row twice |
| `BinanceMatching.NothingIsBookedTwiceIff` | internal/connector/binance_subaccounts.go:47-146 | no ledger over a set of amounts books an accounted-for row twice exactly when the tolerance separates those amounts |
| `WalletPerimeter.MeasuredIff` | internal/connector/binance.go:907-942 | a wallet is measured exactly when the last balance read opened it, or without one when it is one of the five that trade |
| `WalletPerimeter.OnChainMoves` | internal/connector/binance.go:1044-1119 | on chain, type 1 is the funding wallet and every other the spot wallet; a deposit adds its amount there, a withdrawal takes amount and fee, and no other wallet moves |
| `WalletPerimeter.TransferMoves` | internal/connector/binance.go:913-926 | a confirmed transfer moves its amount from one wallet to the other and touches no third; an unconfirmed one nothing |
| `WalletPerimeter.LinksAreServed` | internal/connector/binance.go:874-905 | every pair of wallets the venue links has a transfer type each way |
| `WalletPerimeter.OnlyLinksAreServed` | internal/connector/binance.go:874-905 | and no type leads anywhere else |
| `WalletPerimeter.PassedOverIff` | internal/connector/binance.go:1044-1156 | an event is passed over exactly when its list already holds a page of earlier ones, 1000 on chain and 100 per transfer type, or when it is an untimed withdrawal |
| `WalletPerimeter.EventIsBooked` | internal/connector/binance.go:913-926 | each deposit, withdrawal or table transfer books exactly its effect on the measured wallets' total |
| `WalletPerimeter.BookingsAreTheEquityChange` | internal/connector/binance.go:1044-1156 | over every history the three ledgers together book the change of that total |
| `WalletPerimeter.SilentKind` | internal/connector/binance.go:1121-1126 | a transfer type skipped for its zero sign would have booked nothing |
| `WalletPerimeter.ReadLedger` | internal/connector/binance.go:1044-1119 | one list is booked row by row as far as its one page goes |
| `WalletPerimeter.CollectCashflows` | internal/connector/binance.go:1044-1156 | for every measured set, every transfer table and whichever type requests fail, the sum booked is the net change of the measured wallets less what is missed: rows beyond a list's one page, untimed withdrawals, and the failed types |
| `WalletPerimeter.ReadTransfers` | internal/connector/binance.go:1121-1156 | in any order of types, what is booked is what the pages of the answered types book |
| `WalletPerimeter.MissedIsTheDifference` | internal/connector/binance.go:1044-1156 | what is read and what is missed make up the net change |
| `WalletPerimeter.NothingMissed` | internal/connector/binance.go:1044-1156 | with every request answered, every list within its page and every withdrawal timed, nothing is missed |
| `WalletPerimeter.GetCashflows` | internal/connector/binance.go:874-949 | with every request answered, for the code's own table and the wallets the last balance read opened, the booked sum is their net change less the rows passed over, and exactly that when there are none |
| `BitgetPairing.FindSpotLeg` | internal/connector/bitget.go:524-541 | the first unmatched spot bill that is the opposite leg, none only when there is none |
| `BitgetPairing.PairBitgetTransfers` | internal/connector/bitget.go:519-543 | the bills marked are the legs of a one-to-one matching of opposite legs within the window, which no further pair could extend |
| `BitgetPairing.PairsCancel` | internal/connector/bitget.go:519-543 | the legs of any such matching cancel to within 0.01 per pair |
| `BitgetPairing.BookSpot` | internal/connector/bitget.go:570-583 | one spot bill books its signed dollars at its time, a matched transfer nothing |
| `BitgetPairing.ClassifySpot` | internal/connector/bitget.go:570-583 | spot flows are the unmatched boundary bills in order, and exactly the unpriced coins are named |
| `BitgetPairing.ClassifyMix` | internal/connector/bitget.go:584-594 | futures flows follow: the unmatched boundary bills in order |
| `BitgetPairing.SpotFlowsTotal` | internal/connector/bitget.go:570-583 | the spot flows add up to all boundary deltas less the matched legs |
| `BitgetPairing.SpotFlowsAreCrossings` | internal/connector/bitget.go:570-583 | in dollar coins the spot flows are the unmatched boundary bills at their own signed sizes and times, withdrawals negative |
| `BitgetPairing.MixFlowsAreCrossings` | internal/connector/bitget.go:584-594 | the futures flows are the unmatched boundary bills at their own signed changes and times |
| `BitgetPairing.BookingsKeepTheirSign` | internal/connector/bitget.go:570-583 | in any coin a withdrawal never books a gain, every other bill books with the sign of its size, and none that crosses at a price books zero |
| `BitgetPairing.LegsAreClose` | internal/connector/bitget.go:524-541 | two legs pair exactly within ten minutes and a cent, a stable spot transfer against a futures exchange transfer |
| `BitgetPairing.FlowsAreWhatCrossed` | internal/connector/bitget.go:548-595 | in dollar coins the flows total the raw signed sizes of everything that crossed the boundary, within 0.01 per matched pair |
| `Valuation.UsdValueScales` | internal/connector/bitget.go:557-569 | a stable coin is worth its quantity, a priced one its quantity times the price, an unpriced one nothing |
| `BitgetPairing.ClassifyBitgetCashflows` | internal/connector/bitget.go:548-595 | for every pair of ledgers and every price map the flows are those of a maximal matching, and their total differs from all boundary deltas by at most 0.01 per matched pair |
| `IGSession.Lifetime` | internal/connector/ig.go:250-256 | the lifetime trusted is positive and never longer than the one stated |
| `IGSession.LifetimeIs` | internal/connector/ig.go:250-256 | ten seconds short of the lifetime stated, all of it up to ten seconds, and fifty seconds when none is readable |
| `IGSession.Client.LogIn` | internal/connector/ig.go:184-267 | a successful login opens the next generation; a failed one changes nothing |
| `IGSession.Client.GetSession` | internal/connector/ig.go:158-169 | a live session comes from the cache, any other by one login |
| `IGSession.Client.InvalidateSession` | internal/connector/ig.go:176-182 | retires the session of that generation and no other |
| `IGSession.RunKeepsInv` | internal/connector/ig.go:158-182 | in every run of any number of requests the cached session is none or the newest, and a generation gone was rejected or expired |
| `IGSession.OnlyItsOwnRejectionRetires` | internal/connector/ig.go:171-182 | in every run a session leaves the cache only by a rejection of its own generation or by a login at or after its expiry |
| `IGSession.SignsWithALiveSession` | internal/connector/ig.go:158-169 | in every run a request is signed with the cached session before its expiry, by a login at or after it, and not sent when that login fails |
| `IGSession.LoginsAreBounded` | internal/connector/ig.go:158-280 | successful logins number at most 1 plus rejected plus expired generations |
| `IGSession.RequestsRetryOnce` | internal/connector/ig.go:272-312 | each request is sent at most twice, the second time with a newer session than the rejected one |
| `IGSession.HealthyAccountIsNotRejected` | internal/connector/ig.go:171-182 | against a venue that rejects superseded tokens only, logins number at most 1 plus expiries, and a twice-rejected request was retried with a session that expired meanwhile |
| `IGDecimal.LastIndex` | internal/connector/ig.go:322-323 | the last place of a character, −1 when it does not occur |
| `IGDecimal.ParseIGDecimal` | internal/connector/ig.go:361-388 | the loop reads a text as the specification does: leading sign, digits and separators, nothing else |
| `IGDecimal.SeparatorOf` | internal/connector/ig.go:321-355 | the decimal point is recognised unless it stands alone before exactly three digits |
| `IGDecimal.PrintedReads` | internal/connector/ig.go:321-388 | what every printed amount reads as: itself, or a thousandfold where its point looks like a grouping mark |
| `IGDecimal.PrintedReadsBackIff` | internal/connector/ig.go:321-388 | any sign, currency text, locale, grouping and number of decimals: read back exactly unless non-zero with three decimals and no mark |
| `IGDecimal.ReadsIff` | internal/connector/ig.go:361-388 | a text is read exactly when it has a digit and not both separators with the rightmost repeated |
| `ConnectorCache.Cache.GetConn` | internal/cache/connector_cache.go:64-92 | as one step: a miss, the removal and release of an expired entry, or the connector with its use noted, and the counters |
| `ConnectorCache.Cache.FindOldest` | internal/cache/connector_cache.go:150-171 | at capacity the key evicted has minimal last use; below it none is |
| `ConnectorCache.Cache.PutConn` | internal/cache/connector_cache.go:95-114 | evicts if full, releases a different connector it replaces, stores, and counts the eviction |
| `ConnectorCache.Cache.CleanUp` | internal/cache/connector_cache.go:187-201 | drops and releases exactly the expired entries, and counts them |
| `ConnectorCache.RunKeepsInv` | internal/cache/connector_cache.go:64-201 | in every run of atomic operations whose Puts bring clean connectors: size within bounds, every connector put in is cached and unreleased or gone and released exactly once |
| `ConnectorCache.PutKeepsInvIff` | internal/cache/connector_cache.go:95-114 | a Put keeps the books exactly when its connector was never put in before, or is the one its own key holds and that key is not evicted |
| `ConnectorCache.BooksHoldIffClean` | internal/cache/connector_cache.go:64-201 | along every run the books hold exactly when every Put brings such a connector |
| `ConnectorCache.EntriesAreLatestPuts` | internal/cache/connector_cache.go:95-114 | in every run an entry is that of the latest Put of its key |
| `ConnectorCache.LastUsedIsTheLatestUse` | internal/cache/connector_cache.go:64-114 | in every run the last use of a cached entry is the time of the latest Put or Get of its key |
| `ConnectorCache.LeastRecentlyUsedIsEvicted` | internal/cache/connector_cache.go:148-171 | in every run the key a Put evicts is one whose latest Put or Get is no later than that of any cached key, and the cache was full |
| `ConnectorCache.LeavesForCause` | internal/cache/connector_cache.go:64-201 | a key leaves only as the victim of a Put into a full cache or past its time to live |
| `ConnectorCache.CleanupLeavesTheLiving` | internal/cache/connector_cache.go:187-201 | a cleanup leaves exactly the entries within their time to live |
| `ConnectorCache.GetReturnsTheLatestPut` | internal/cache/connector_cache.go:64-92 | in every run Get answers with the latest Put's connector exactly when its key is cached and that Put is within the time to live |
| `ConnectorCache.SplitGetReleasesTwice` | internal/cache/connector_cache.go:67-83 | two lookups that both read an expired entry release it twice |
| `ConnectorCache.SplitGetIsSafeIff` | internal/cache/connector_cache.go:67-83 | the second half of an expired lookup keeps the books exactly when the key still holds what the first half read |
| `ConnectorCache.StaleConnectorIsReleasedWhileCached` | internal/cache/connector_cache.go:99-109 | a run: a connector put again under its own key, the one evicted to make room, is released and then cached |
| `ConnectorCache.LateHitIsUnreleasedIff` | internal/cache/connector_cache.go:85-91 | in every run the connector a hit hands out late is unreleased exactly when its key still holds it |
| `ConnectorCache.LateHitIsReleased` | internal/cache/connector_cache.go:85-91 | a run in which a hit hands out a connector evicted in between |
| `Allowlist.SinkInto` | internal/bootstrap/signed_allowlist.go:202-212 | one element is swapped down to its place, the rest of the array untouched |
| `Allowlist.SortAllowlistEntries` | internal/bootstrap/signed_allowlist.go:202-212 | the array is stably sorted by measurement in place |
| `Allowlist.SignerCanonical` | cmd/release-sign/main.go:262-282 | the signer produces the canonical payload |
| `Allowlist.CanonicalIs` | cmd/release-sign/main.go:262-282 | the canonical form keeps version and time, and every entry with its tag and time under its normalised measurement, in order of measurement |
| `Allowlist.VerifierCanonical` | internal/bootstrap/signed_allowlist.go:176-198 | the verifier produces the same one exactly when every measurement is hex, and otherwise names one that is not |
| `Allowlist.HexIff` | internal/bootstrap/signed_allowlist.go:183-185 | hex is whole bytes of the twenty-two digits |
| `Allowlist.OrderDoesNotMatter` | internal/bootstrap/signed_allowlist.go:172-198 | without conflicting entries the canonical form is the same in every order |
| `Allowlist.ConflictDependsOnOrder` | internal/bootstrap/signed_allowlist.go:202-212 | with a conflict some other order gives another form |
| `Allowlist.OrderFreeIffNoConflicts` | internal/bootstrap/signed_allowlist.go:172-212 | independence of order holds exactly without conflicts |
| `Allowlist.IsAllowed` | internal/bootstrap/signed_allowlist.go:159-170 | a measurement is allowed when an entry has it after normalising both |
| `Allowlist.NormalTwice` | internal/bootstrap/signed_allowlist.go:176-198 | normalising is idempotent |
| `Allowlist.NormalIs` | internal/bootstrap/signed_allowlist.go:180-182 | normalising takes the text between the outer blanks in small letters, and nothing else |
| `Allowlist.CanonicalAllowsTheSame` | internal/bootstrap/signed_allowlist.go:156-198 | the canonical payload allows exactly what the payload does |
| `Allowlist.UpsertEntry` | cmd/release-sign/main.go:296-304 | overwrites the first entry of the measurement, or appends |
| `Allowlist.UpsertKeepsDistinctIff` | cmd/release-sign/main.go:296-304 | normalised measurements stay distinct exactly when an entry under the same normal form is written that way |
| `Allowlist.ReleasesStayDistinct` | cmd/release-sign/main.go:168-175 | however many releases are signed, no measurement is named twice |
| `OperatorKey.ReadU32Iff` | internal/bootstrap/signed_allowlist.go:257-259 | four bytes read as a length exactly when they encode it |
| `OperatorKey.PubkeyRoundTrip` | cmd/release-sign/main.go:308-339 | both decoders invert the encoder on every 32-byte key |
| `OperatorKey.DecodersAgreeIff` | internal/bootstrap/signed_allowlist.go:223-255 | the verifier accepts exactly what the signer's decoder accepts with both length fields right, and reads the same key |
| `OperatorKey.AcceptedIff` | internal/bootstrap/signed_allowlist.go:223-255 | the verifier accepts exactly the bytes that begin with the encoding of a 32-byte key, and reads that key |
| `OperatorKey.SignerAcceptsIff` | cmd/release-sign/main.go:308-339 | the signer's decoder accepts the same with any eight bytes for the two lengths |
| `OperatorKey.WireBytes` | cmd/release-sign/main.go:308-339 | the bytes on the wire: each length most significant byte first, the name ssh-ed25519, then the key |

## Left out

- HTTP, WebSocket, XML, JSON, base64, request signing, databases and all cryptography; a canonical payload is compared before it is serialised.
- IEEE rounding, overflow of 64-bit integers and of parsed floats; amounts are exact and the code's tolerances are kept as they are written.
- BybitExecutions.Executions: a row's key is the tuple of its fields, not their text joined by a separator, so fields that contain the separator could collide in the code only.
- Bybit's transaction-log reader, which stops silently at its page cap, and cTrader's cash-flow windows, which share their boundary millisecond.
- CTraderHistory.BuildHistory: a trade filled before the first balance sample is on no row, as in the code; nothing is assumed about how ties in time are sorted.
- CTraderSession: the map of pending requests and the text of errors; an answer is taken to come from the socket that carried the request. A requester may take its steps in any order, which covers every order the code takes.
- FlexGate: waiting in place for a token, the report cache and statement periods; each token's entry is followed on its own, since entries do not interact.
- FlexMerge.MergeDailyStatements: sections, rows and attributes are values; XML parsing and writing, and reading the sections of a statement, are not modelled.
- FlexMerge.UndatedCashRowsAreDated: speaks of rows that name no date; a row that names an empty one gets a second attribute behind it, as in the code, and reads as before.
- SegmentNav.SumSegmentNav: how statements are grouped into segments and how the other sections are joined is not modelled; number formatting and parsing are parameters, exact on decimals, which float64 is not beyond its precision.
- SegmentNav.SweepIsNeutralIff: a sweep of a decimal amount that both statements show as an equal and opposite change of one amount from its day on; consolidation of three or more segments has the amount result only.
- WalletPerimeter.CollectCashflows: amounts that do not parse are zero, as in the code, and are not modelled apart; a transfer of a type missing from the table is outside the claim.
- WalletPerimeter.GetCashflows: Fiat, Pay, sub-account and stray flows are not in this sum.
- BinanceMatching.ClaimedRowsAreNeverStray: needs amounts that the tolerance separates, which is exactly what it takes.
- BitgetPairing: amounts that do not parse are zero, as in the code, and are not modelled apart.
- IGSession: a request's transport retries count as one attempt, and the generation counter does not wrap.
- Allowlist: lower-casing and trimming cover ASCII; Unicode case folding and other Unicode spaces are not modelled.
- ConnectorCache: building the key from a credential hash; the clock is whatever instant each operation reads.
- The other venue connectors, admin tools, probes, configuration and logging, which would only add field mapping.
