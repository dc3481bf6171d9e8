/** The daily equity history rebuilt from cTrader deals and ledger entries. */
module CTraderHistory {
  import opened Sorting
  import opened Wrappers
  import opened CTraderLedger

  /** A deal as the history reads it; `balance` is present on a closing deal. */
  datatype Deal = Deal(
    executionTimestamp: int, balance: Option<int>, detailDigits: int, moneyDigits: int,
    filled: bool, sell: bool, filledVolume: int, usdRate: real, price: real, commission: int)

  /** The trades of a day: how many, what they moved and cost, and the same by side. */
  datatype TradeDay = TradeDay(
    count: nat, volume: real, fees: real, longTrades: nat, shortTrades: nat, longVolume: real, shortVolume: real)

  const NO_TRADES := TradeDay(0, 0.0, 0.0, 0, 0, 0.0, 0.0)

  datatype CashDay = CashDay(deposits: real, withdrawals: real)

  /** A daily row: what the account held as the day began, and the previous day's flows and trades. */
  datatype Snapshot = Snapshot(day: int, equity: real, deposits: real, withdrawals: real, trades: TradeDay)

  // ---------------------------------------------------------------- balance points

  function DealPoint(d: Deal): Point
    requires d.balance.Some?
  {
    Point(d.executionTimestamp, d.balance.value as real / MoneyDivisor(if d.detailDigits == 0 then d.moneyDigits else d.detailDigits))
  }

  function DealPoints(deals: seq<Deal>): seq<Point> {
    if deals == [] then []
    else DealPoints(deals[..|deals| - 1]) + if deals[|deals| - 1].balance.Some? then [DealPoint(deals[|deals| - 1])] else []
  }

  function EntryPoints(entries: seq<Entry>): seq<Point> {
    if entries == [] then []
    else EntryPoints(entries[..|entries| - 1]) + [Point(entries[|entries| - 1].timestamp, BalanceAfter(entries[|entries| - 1]))]
  }

  /** A closing deal samples its own balance at its own time, in its detail's digits or else the deal's; an entry
      the balance after it. In minor units. */
  lemma SampleIs(d: Deal, e: Entry)
    ensures d.balance.Some? ==> DealPoint(d).t == d.executionTimestamp
    ensures d.balance.Some? && d.detailDigits == 0 ==> DealPoint(d).bal * MoneyDivisor(d.moneyDigits) == d.balance.value as real
    ensures d.balance.Some? && d.detailDigits != 0 ==> DealPoint(d).bal * MoneyDivisor(d.detailDigits) == d.balance.value as real
    ensures BalanceAfter(e) * MoneyDivisor(e.moneyDigits) == e.balance as real
  {
    if d.balance.Some? {
      Scaled(d.balance.value as real, MoneyDivisor(if d.detailDigits == 0 then d.moneyDigits else d.detailDigits));
    }
    Scaled(e.balance as real, MoneyDivisor(e.moneyDigits));
  }

  /** Every closing deal is sampled, and nothing else. */
  lemma {:induction false} DealPointsAre(deals: seq<Deal>) returns (closing: seq<nat>)
    ensures forall a, b :: 0 <= a < b < |closing| ==> closing[a] < closing[b]
    ensures forall i: nat :: i in closing <==> i < |deals| && deals[i].balance.Some?
    ensures |DealPoints(deals)| == |closing|
    ensures forall a :: 0 <= a < |closing| ==> Samples(deals, closing[a], DealPoints(deals)[a])
  {
    closing := [];
    if deals != [] {
      var n := |deals| - 1;
      closing := DealPointsAre(deals[..n]);
      assert forall a :: 0 <= a < |closing| ==> closing[a] in closing;
      assert forall i: nat, p :: i < n && Samples(deals[..n], i, p) ==> Samples(deals, i, p);
      if deals[n].balance.Some? {
        closing := closing + [n];
      }
    }
  }

  ghost predicate Samples(deals: seq<Deal>, i: nat, p: Point) {
    i < |deals| && deals[i].balance.Some? && p == DealPoint(deals[i])
  }

  lemma {:induction false} EntryPointsAre(entries: seq<Entry>)
    ensures |EntryPoints(entries)| == |entries|
    ensures forall i :: 0 <= i < |entries| ==> EntryPoints(entries)[i] == Point(entries[i].timestamp, BalanceAfter(entries[i]))
  {
    if entries != [] {
      EntryPointsAre(entries[..|entries| - 1]);
    }
  }

  predicate EarlierPoint(a: Point, b: Point) {
    a.t <= b.t
  }

  predicate EarlierEntry(a: Entry, b: Entry) {
    a.timestamp <= b.timestamp
  }

  ghost predicate SortedPoints(ps: seq<Point>) {
    SortedBy(ps, EarlierPoint)
  }

  ghost predicate SortedEntries(es: seq<Entry>) {
    SortedBy(es, EarlierEntry)
  }

  /** Sorting by time; callers know the order of the times only, not how ties fall. */
  method SortPoints(ps: seq<Point>) returns (s: seq<Point>)
    ensures SortedPoints(s) && multiset(s) == multiset(ps)
  {
    s := SortBy(ps, EarlierPoint);
    SortByIsSorted(ps, EarlierPoint);
    SortByIsPermutation(ps, EarlierPoint);
  }

  method SortEntries(es: seq<Entry>) returns (s: seq<Entry>)
    ensures SortedEntries(s) && multiset(s) == multiset(es)
  {
    s := SortBy(es, EarlierEntry);
    SortByIsSorted(es, EarlierEntry);
    SortByIsPermutation(es, EarlierEntry);
  }

  /** p is a latest sample strictly before t. */
  ghost predicate LatestBefore(points: seq<Point>, t: int, p: Point) {
    p in points && p.t < t && forall q :: q in points && q.t < t ==> q.t <= p.t
  }

  /** The carried-forward balance strictly before t, 0 before the first sample. */
  method BalanceAt(points: seq<Point>, t: int) returns (bal: real)
    requires SortedPoints(points)
    ensures if exists p :: p in points && p.t < t then exists p :: LatestBefore(points, t, p) && p.bal == bal else bal == 0.0
  {
    bal := 0.0;
    for i := 0 to |points|
      invariant forall j :: 0 <= j < i ==> points[j].t < t
      invariant i == 0 ==> bal == 0.0
      invariant i > 0 ==> bal == points[i - 1].bal
    {
      if points[i].t >= t {
        assert i > 0 ==> LatestBefore(points, t, points[i - 1]);
        return;
      }
      bal := points[i].bal;
    }
    assert |points| > 0 ==> LatestBefore(points, t, points[|points| - 1]);
  }

  // ---------------------------------------------------------------- flows by day

  /** What one entry books, and the day it books it on. */
  datatype Flow = Flow(day: int, amount: real)

  /** The flows of the first k entries, in ledger order. */
  function LedgerFlows(deals: seq<Point>, ledger: seq<Entry>, k: nat): (flows: seq<Flow>)
    requires k <= |ledger|
    ensures |flows| == k && forall i :: 0 <= i < k ==> flows[i] == Flow(Day(ledger[i].timestamp), Booked(deals, ledger, i))
  {
    if k == 0 then [] else LedgerFlows(deals, ledger, k - 1) + [Flow(Day(ledger[k - 1].timestamp), Booked(deals, ledger, k - 1))]
  }

  /** The deposits and withdrawals of one day. */
  function DayFlow(flows: seq<Flow>, day: int): CashDay {
    if flows == [] then CashDay(0.0, 0.0)
    else
      var before, last := DayFlow(flows[..|flows| - 1], day), flows[|flows| - 1];
      if last.day != day then before
      else if last.amount > 0.0 then before.(deposits := before.deposits + last.amount)
      else before.(withdrawals := before.withdrawals - last.amount)
  }

  /** What a day moved, in and out alike. */
  ghost function Moved(flows: seq<Flow>, day: int): real {
    if flows == [] then 0.0
    else
      var last := flows[|flows| - 1];
      Moved(flows[..|flows| - 1], day) + if last.day != day then 0.0 else if last.amount < 0.0 then -last.amount else last.amount
  }

  /** A day's deposits less its withdrawals are what it booked, and together they are what it moved either way;
      neither is negative. */
  lemma {:induction false} DayFlowIs(flows: seq<Flow>, day: int)
    ensures var f := DayFlow(flows, day);
      && f.deposits - f.withdrawals == BookedBetween(flows, day, day) && f.deposits + f.withdrawals == Moved(flows, day)
      && f.deposits >= 0.0 && f.withdrawals >= 0.0
  {
    if flows != [] {
      DayFlowIs(flows[..|flows| - 1], day);
    }
  }

  function Lookup(byDay: map<int, CashDay>, day: int): CashDay {
    if day in byDay then byDay[day] else CashDay(0.0, 0.0)
  }

  lemma DayFlowOfAppend(flows: seq<Flow>, f: Flow, day: int)
    ensures DayFlow(flows + [f], day) ==
      var before := DayFlow(flows, day);
      if f.day != day then before
      else if f.amount > 0.0 then before.(deposits := before.deposits + f.amount)
      else before.(withdrawals := before.withdrawals - f.amount)
  {
    assert (flows + [f])[..|flows|] == flows;
  }

  function AddFlow(byDay: map<int, CashDay>, day: int, amount: real): map<int, CashDay> {
    var sums := Lookup(byDay, day);
    byDay[day := if amount > 0.0 then sums.(deposits := sums.deposits + amount) else sums.(withdrawals := sums.withdrawals + -amount)]
  }

  ghost predicate Summed(byDay: map<int, CashDay>, flows: seq<Flow>) {
    forall day :: Lookup(byDay, day) == DayFlow(flows, day)
  }

  lemma FlowIsSummed(byDay: map<int, CashDay>, flows: seq<Flow>, f: Flow)
    requires Summed(byDay, flows)
    ensures Summed(AddFlow(byDay, f.day, f.amount), flows + [f])
    ensures f.amount == 0.0 ==> Summed(byDay, flows + [f])
  {
    forall day {
      DayFlowOfAppend(flows, f, day);
    }
  }

  /** Moves past the deals before t; the last of them leaves its balance. */
  method SkipDeals(deals: seq<Point>, di: nat, running: real, t: int, ghost w: Walk) returns (di': nat, running': real)
    requires w.di == di <= |deals| && w.running == running
    ensures di' == PassDeals(deals, w, t).di && running' == PassDeals(deals, w, t).running
  {
    di', running' := di, running;
    ghost var v := w;
    while di' < |deals| && deals[di'].t < t
      invariant v.di == di' <= |deals| && v.running == running'
      invariant PassDeals(deals, v, t) == PassDeals(deals, w, t)
    {
      v := Walk(deals[di'].bal, deals[di'].bal, v.di + 1, v.booked, v.jumps + deals[di'].bal - v.truth);
      running' := deals[di'].bal;
      di' := di' + 1;
    }
  }

  /** Sums each day's recognised flows, walking the deals alongside to know the balance before each entry. */
  method CashflowsByDay(deals: seq<Point>, ledger: seq<Entry>) returns (byDay: map<int, CashDay>)
    ensures Summed(byDay, LedgerFlows(deals, ledger, |ledger|))
  {
    byDay := map[];
    var running, di := 0.0, 0;
    for k := 0 to |ledger|
      invariant di <= |deals| && di == After(deals, ledger, k).di && running == After(deals, ledger, k).running
      invariant Summed(byDay, LedgerFlows(deals, ledger, k))
    {
      var e := ledger[k];
      di, running := SkipDeals(deals, di, running, e.timestamp, After(deals, ledger, k));
      var amount := ResetAwareAmount(e, running);
      FlowIsSummed(byDay, LedgerFlows(deals, ledger, k), Flow(Day(e.timestamp), if amount.Some? then amount.value else 0.0));
      if e.balance != 0 {
        running := BalanceAfter(e);
      }
      if amount.None? {
        continue;
      }
      byDay := AddFlow(byDay, Day(e.timestamp), amount.value);
    }
  }

  // ---------------------------------------------------------------- trades by day

  function Units(d: Deal): real {
    d.filledVolume as real / 100.0
  }

  /** Dollars traded, by the deal's own rate where it carries one that yields any, else units at its price. */
  function Notional(d: Deal): real {
    if d.usdRate > 0.0 && Units(d) * d.usdRate > 0.0 then Units(d) * d.usdRate else Units(d) * d.price
  }

  function Fee(d: Deal): real {
    -(d.commission as real) / MoneyDivisor(d.moneyDigits)
  }

  function AddTrade(t: TradeDay, d: Deal): TradeDay {
    var all := t.(count := t.count + 1, volume := t.volume + Notional(d), fees := t.fees + Fee(d));
    if d.sell then all.(shortTrades := t.shortTrades + 1, shortVolume := t.shortVolume + Notional(d))
    else all.(longTrades := t.longTrades + 1, longVolume := t.longVolume + Notional(d))
  }

  /** Volume is in hundredths of a unit, worth the deal's own dollar rate when that is positive, else its price; a
      fee is what the commission takes, so a charge (a negative commission) is a positive fee. */
  lemma DealAmounts(d: Deal)
    ensures 100.0 * Notional(d) == d.filledVolume as real * (if d.usdRate > 0.0 && d.filledVolume > 0 then d.usdRate else d.price)
    ensures Fee(d) * MoneyDivisor(d.moneyDigits) == -d.commission as real
  {
    Scaled(-(d.commission as real), MoneyDivisor(d.moneyDigits));
    assert 100.0 * Units(d) == d.filledVolume as real;
    if d.usdRate > 0.0 {
      assert Units(d) * d.usdRate > 0.0 <==> Units(d) > 0.0;
    }
  }

  /** The filled deals of one day, added up. */
  function DayTrades(deals: seq<Deal>, day: int): TradeDay {
    if deals == [] then NO_TRADES
    else
      var before, d := DayTrades(deals[..|deals| - 1], day), deals[|deals| - 1];
      if d.filled && Day(d.executionTimestamp) == day then AddTrade(before, d) else before
  }

  ghost function Sum(deals: seq<Deal>, value: Deal -> real): real {
    if deals == [] then 0.0 else Sum(deals[..|deals| - 1], value) + value(deals[|deals| - 1])
  }

  /** Filled within the 24 hours of a day. */
  ghost predicate On(d: Deal, day: int) {
    d.filled && day * 86_400_000 <= d.executionTimestamp < (day + 1) * 86_400_000
  }

  /** A day's figures are sums over the deals filled in it: buys on the long side, sells on the short one. */
  lemma {:induction false} DayTradesAre(deals: seq<Deal>, day: int)
    ensures var t := DayTrades(deals, day);
      && t.volume == Sum(deals, d => if On(d, day) then Notional(d) else 0.0)
      && t.fees == Sum(deals, d => if On(d, day) then Fee(d) else 0.0)
      && t.longVolume == Sum(deals, d => if On(d, day) && !d.sell then Notional(d) else 0.0)
      && t.shortVolume == Sum(deals, d => if On(d, day) && d.sell then Notional(d) else 0.0)
      && t.longTrades as real == Sum(deals, d => if On(d, day) && !d.sell then 1.0 else 0.0)
      && t.shortTrades as real == Sum(deals, d => if On(d, day) && d.sell then 1.0 else 0.0)
  {
    if deals != [] {
      DayTradesAre(deals[..|deals| - 1], day);
      DayIs(deals[|deals| - 1].executionTimestamp);
    }
  }

  /** Each trade is counted on one side, with its volume. */
  lemma {:induction false} SidesAddUp(deals: seq<Deal>, day: int)
    ensures var t := DayTrades(deals, day);
      t.longTrades + t.shortTrades == t.count && t.longVolume + t.shortVolume == t.volume
  {
    if deals != [] {
      SidesAddUp(deals[..|deals| - 1], day);
    }
  }

  function TradesOn(byDay: map<int, TradeDay>, day: int): TradeDay {
    if day in byDay then byDay[day] else NO_TRADES
  }

  ghost predicate TradesSummed(byDay: map<int, TradeDay>, deals: seq<Deal>) {
    forall day :: TradesOn(byDay, day) == DayTrades(deals, day)
  }

  method TradesByDay(deals: seq<Deal>) returns (byDay: map<int, TradeDay>)
    ensures TradesSummed(byDay, deals)
  {
    byDay := map[];
    for i := 0 to |deals|
      invariant TradesSummed(byDay, deals[..i])
    {
      assert deals[..i + 1][..i] == deals[..i];
      if !deals[i].filled {
        continue;
      }
      var day := Day(deals[i].executionTimestamp);
      byDay := byDay[day := AddTrade(TradesOn(byDay, day), deals[i])];
    }
    assert deals[..|deals|] == deals;
  }

  /** How many deals were filled on the days from `first` to `last`. */
  function FilledBetween(deals: seq<Deal>, first: int, last: int): nat {
    if deals == [] then 0
    else
      var d := deals[|deals| - 1];
      FilledBetween(deals[..|deals| - 1], first, last) + if d.filled && first <= Day(d.executionTimestamp) <= last then 1 else 0
  }

  function TradeCount(rows: seq<Snapshot>): nat {
    if rows == [] then 0 else TradeCount(rows[..|rows| - 1]) + rows[|rows| - 1].trades.count
  }

  lemma {:induction false} OneMoreTradingDay(deals: seq<Deal>, first: int, last: int)
    requires first <= last
    ensures FilledBetween(deals, first, last) == FilledBetween(deals, first, last - 1) + DayTrades(deals, last).count
  {
    if deals != [] {
      OneMoreTradingDay(deals[..|deals| - 1], first, last);
    }
  }

  lemma {:induction false} NoTradingDays(deals: seq<Deal>, first: int, last: int)
    requires last < first
    ensures FilledBetween(deals, first, last) == 0
  {
    if deals != [] {
      NoTradingDays(deals[..|deals| - 1], first, last);
    }
  }

  /** Right rows of consecutive days count every deal filled on the days before theirs. */
  lemma {:induction false} RowsCountTrades(rows: seq<Snapshot>, firstRow: int, points: seq<Point>, flows: seq<Flow>, deals: seq<Deal>)
    requires forall i :: 0 <= i < |rows| ==> RowIsRight(rows[i], firstRow + i, points, flows, deals)
    ensures TradeCount(rows) == FilledBetween(deals, firstRow - 1, firstRow + |rows| - 2)
  {
    if rows == [] {
      NoTradingDays(deals, firstRow - 1, firstRow - 2);
    } else {
      var n := |rows| - 1;
      RowsCountTrades(rows[..n], firstRow, points, flows, deals);
      assert RowIsRight(rows[n], firstRow + n, points, flows, deals);
      OneMoreTradingDay(deals, firstRow - 1, firstRow + n - 1);
    }
  }

  // ---------------------------------------------------------------- conservation

  /** What is booked on the days from `first` to `last`. */
  function BookedBetween(flows: seq<Flow>, first: int, last: int): real {
    if flows == [] then 0.0
    else
      var f := flows[|flows| - 1];
      BookedBetween(flows[..|flows| - 1], first, last) + if first <= f.day <= last then f.amount else 0.0
  }

  /** What is booked up to and including a day. */
  function BookedUpTo(flows: seq<Flow>, last: int): real {
    if flows == [] then 0.0
    else
      var f := flows[|flows| - 1];
      BookedUpTo(flows[..|flows| - 1], last) + if f.day <= last then f.amount else 0.0
  }

  function Net(rows: seq<Snapshot>): real {
    if rows == [] then 0.0 else Net(rows[..|rows| - 1]) + rows[|rows| - 1].deposits - rows[|rows| - 1].withdrawals
  }

  lemma {:induction false} OneMoreDay(flows: seq<Flow>, first: int, last: int)
    requires first <= last
    ensures BookedBetween(flows, first, last)
      == BookedBetween(flows, first, last - 1) + DayFlow(flows, last).deposits - DayFlow(flows, last).withdrawals
  {
    if flows != [] {
      OneMoreDay(flows[..|flows| - 1], first, last);
    }
  }

  lemma {:induction false} NoDays(flows: seq<Flow>, first: int, last: int)
    requires last < first
    ensures BookedBetween(flows, first, last) == 0.0
  {
    if flows != [] {
      NoDays(flows[..|flows| - 1], first, last);
    }
  }

  /** Nothing is booked before the first sample, so the rows reach back far enough. */
  lemma {:induction false} NothingEarlier(flows: seq<Flow>, first: int, last: int)
    requires forall i :: 0 <= i < |flows| ==> first <= flows[i].day
    ensures BookedUpTo(flows, last) == BookedBetween(flows, first, last)
  {
    if flows != [] {
      NothingEarlier(flows[..|flows| - 1], first, last);
    }
  }

  lemma {:induction false} EntryPointsFacts(entries: seq<Entry>, e: Entry)
    requires e in entries
    ensures Point(e.timestamp, BalanceAfter(e)) in EntryPoints(entries)
  {
    var n := |entries| - 1;
    if e != entries[n] {
      assert entries == entries[..n] + [entries[n]];
      EntryPointsFacts(entries[..n], e);
    }
  }

  /** Every entry is dated no earlier than the first sample. */
  lemma EntriesAreSampled(deals: seq<Deal>, cashflows: seq<Entry>, points: seq<Point>, ledger: seq<Entry>)
    requires SortedPoints(points) && multiset(points) == multiset(DealPoints(deals) + EntryPoints(cashflows))
    requires multiset(ledger) == multiset(cashflows)
    ensures points == [] ==> ledger == []
    ensures points != [] ==> forall e :: e in ledger ==> Day(points[0].t) <= Day(e.timestamp)
  {
    forall e | e in ledger
      ensures points != [] && points[0].t <= e.timestamp
    {
      assert e in multiset(cashflows);
      EntryPointsFacts(cashflows, e);
      var p := Point(e.timestamp, BalanceAfter(e));
      assert p in multiset(DealPoints(deals) + EntryPoints(cashflows));
      assert p in multiset(points);
      assert p in points;
    }
    assert ledger != [] ==> ledger[0] in ledger;
  }

  /** What the rebuilt history promises, for the samples and the entry order the sorts settled on. */
  ghost predicate Rebuilt(rows: seq<Snapshot>, points: seq<Point>, flows: seq<Flow>, deals: seq<Deal>, today: int) {
    && |rows| == (if points != [] && today > Day(points[0].t) + 1 then today - Day(points[0].t) - 1 else 0)
    && (forall i :: 0 <= i < |rows| ==> RowIsRight(rows[i], Day(points[0].t) + 1 + i, points, flows, deals))
  }

  ghost predicate RowIsRight(row: Snapshot, day: int, points: seq<Point>, flows: seq<Flow>, deals: seq<Deal>) {
    && row.day == day
    && (exists p :: LatestBefore(points, day * 86_400_000, p) && p.bal == row.equity)
    && CashDay(row.deposits, row.withdrawals) == DayFlow(flows, day - 1)
    && row.trades == DayTrades(deals, day - 1)
  }

  /** The history of some deals and entries: their samples and entries in time order, however the sorts settled
      ties, and rows that conserve every flow booked up to two days ago, and every trade since the first sample. */
  ghost predicate HistoryOf(rows: seq<Snapshot>, deals: seq<Deal>, cashflows: seq<Entry>, today: int,
      points: seq<Point>, dealBals: seq<Point>, ledger: seq<Entry>) {
    && SortedPoints(points) && multiset(points) == multiset(DealPoints(deals) + EntryPoints(cashflows))
    && SortedPoints(dealBals) && multiset(dealBals) == multiset(DealPoints(deals))
    && SortedEntries(ledger) && multiset(ledger) == multiset(cashflows)
    && Rebuilt(rows, points, LedgerFlows(dealBals, ledger, |ledger|), deals, today)
    && Net(rows) == BookedUpTo(LedgerFlows(dealBals, ledger, |ledger|), today - 2)
    && (points != [] ==> TradeCount(rows) == FilledBetween(deals, Day(points[0].t), today - 2))
  }

  /** The rows of the account's history, whatever order its deals and entries come in. */
  method BuildHistory(deals: seq<Deal>, cashflows: seq<Entry>, now: int) returns (rows: seq<Snapshot>)
    ensures exists points, dealBals, ledger :: HistoryOf(rows, deals, cashflows, Day(now), points, dealBals, ledger)
  {
    var points := SortPoints(DealPoints(deals) + EntryPoints(cashflows));
    var dealBals := SortPoints(DealPoints(deals));
    var ledger := SortEntries(cashflows);
    EntriesAreSampled(deals, cashflows, points, ledger);
    if |points| == 0 {
      rows := [];
    } else {
      rows := BuildRows(points, dealBals, ledger, deals, now);
    }
    assert HistoryOf(rows, deals, cashflows, Day(now), points, dealBals, ledger);
  }

  lemma MidnightIsLater(t: int, day: int)
    requires Day(t) < day
    ensures t < day * MS_PER_DAY
  {
  }

  method BuildRow(points: seq<Point>, byDay: map<int, CashDay>, trades: map<int, TradeDay>, row: int, ghost flows: seq<Flow>, ghost deals: seq<Deal>)
    returns (snap: Snapshot)
    requires points != [] && SortedPoints(points) && Day(points[0].t) < row
    requires Summed(byDay, flows) && TradesSummed(trades, deals)
    ensures RowIsRight(snap, row, points, flows, deals)
  {
    var bal := BalanceAt(points, row * MS_PER_DAY);
    MidnightIsLater(points[0].t, row);
    assert points[0] in points;
    var flow := Lookup(byDay, row - 1);
    snap := Snapshot(row, bal, flow.deposits, flow.withdrawals, TradesOn(trades, row - 1));
  }

  /** Right rows for consecutive days net to what was booked on the days before theirs. */
  lemma {:induction false} RowsNet(rows: seq<Snapshot>, firstRow: int, points: seq<Point>, flows: seq<Flow>, deals: seq<Deal>)
    requires forall i :: 0 <= i < |rows| ==> RowIsRight(rows[i], firstRow + i, points, flows, deals)
    ensures Net(rows) == BookedBetween(flows, firstRow - 1, firstRow + |rows| - 2)
  {
    if rows == [] {
      NoDays(flows, firstRow - 1, firstRow - 2);
    } else {
      var n := |rows| - 1;
      RowsNet(rows[..n], firstRow, points, flows, deals);
      assert RowIsRight(rows[n], firstRow + n, points, flows, deals);
      OneMoreDay(flows, firstRow - 1, firstRow + n - 1);
    }
  }

  lemma FlowsAreSince(dealBals: seq<Point>, ledger: seq<Entry>, first: int)
    requires forall e :: e in ledger ==> first <= Day(e.timestamp)
    ensures var flows := LedgerFlows(dealBals, ledger, |ledger|); forall i :: 0 <= i < |flows| ==> first <= flows[i].day
  {
    forall i | 0 <= i < |ledger|
      ensures first <= LedgerFlows(dealBals, ledger, |ledger|)[i].day
    {
      assert ledger[i] in ledger;
    }
  }

  method BuildRows(points: seq<Point>, dealBals: seq<Point>, ledger: seq<Entry>, deals: seq<Deal>, now: int) returns (rows: seq<Snapshot>)
    requires points != [] && SortedPoints(points)
    requires forall e :: e in ledger ==> Day(points[0].t) <= Day(e.timestamp)
    ensures Rebuilt(rows, points, LedgerFlows(dealBals, ledger, |ledger|), deals, Day(now))
    ensures Net(rows) == BookedUpTo(LedgerFlows(dealBals, ledger, |ledger|), Day(now) - 2)
    ensures TradeCount(rows) == FilledBetween(deals, Day(points[0].t), Day(now) - 2)
  {
    var byDay := CashflowsByDay(dealBals, ledger);
    var trades := TradesByDay(deals);
    var firstRow, lastRow := Day(points[0].t) + 1, Day(now) - 1;
    ghost var flows := LedgerFlows(dealBals, ledger, |ledger|);
    FlowsAreSince(dealBals, ledger, firstRow - 1);
    rows := RowsBetween(points, byDay, trades, firstRow, lastRow, flows, deals);
    NothingEarlier(flows, firstRow - 1, lastRow - 1);
  }

  method RowsBetween(points: seq<Point>, byDay: map<int, CashDay>, trades: map<int, TradeDay>, firstRow: int, lastRow: int,
                     ghost flows: seq<Flow>, ghost deals: seq<Deal>)
    returns (rows: seq<Snapshot>)
    requires points != [] && SortedPoints(points) && Day(points[0].t) < firstRow
    requires Summed(byDay, flows) && TradesSummed(trades, deals)
    ensures |rows| == if firstRow <= lastRow then lastRow - firstRow + 1 else 0
    ensures forall i :: 0 <= i < |rows| ==> RowIsRight(rows[i], firstRow + i, points, flows, deals)
    ensures Net(rows) == BookedBetween(flows, firstRow - 1, lastRow - 1)
    ensures TradeCount(rows) == FilledBetween(deals, firstRow - 1, lastRow - 1)
  {
    rows := [];
    var row := firstRow;
    while row <= lastRow
      invariant |rows| == row - firstRow && (row <= lastRow + 1 || row == firstRow)
      invariant forall i :: 0 <= i < |rows| ==> RowIsRight(rows[i], firstRow + i, points, flows, deals)
      decreases lastRow - row
    {
      var snap := BuildRow(points, byDay, trades, row, flows, deals);
      rows := rows + [snap];
      row := row + 1;
    }
    RowsNet(rows, firstRow, points, flows, deals);
    RowsCountTrades(rows, firstRow, points, flows, deals);
    if firstRow > lastRow {
      NoDays(flows, firstRow - 1, lastRow - 1);
      NoTradingDays(deals, firstRow - 1, lastRow - 1);
    }
  }
}
