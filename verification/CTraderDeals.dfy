/** Paging the cTrader deal list: the cursor is the newest millisecond read so far, re-read on every page. */
module CTraderDeals {
  import opened Collections
  import opened Wrappers

  datatype Deal = Deal(dealId: int, executionTimestamp: int, symbolId: int, filledVolume: int, commission: int)

  datatype Page = Page(deals: seq<Deal>, hasMore: bool) | Refused(reason: string)

  /** What the broker answers to (fromTimestamp, toTimestamp) on the n-th page. */
  type Broker = (int, int, nat) -> Page

  datatype WalkError = BrokerRefused(reason: string) | TruncatedHistory

  ghost function Window(ledger: set<Deal>, fromMs: int, toMs: int): set<Deal> {
    set d | d in ledger && fromMs <= d.executionTimestamp <= toMs
  }

  ghost predicate DistinctIds(deals: seq<Deal>) {
    forall i, j :: 0 <= i < j < |deals| ==> deals[i].dealId != deals[j].dealId
  }

  /** A page is part of its window, closed downwards in time: whatever executed before one of its deals
      is on it too. Its order is free. A page without more, or without deals, is the whole window. */
  ghost predicate HonestPage(p: Page, ledger: set<Deal>, fromMs: int, toMs: int) {
    p.Page? ==>
      && (forall d :: d in p.deals ==> d in Window(ledger, fromMs, toMs))
      && (forall d, e :: d in p.deals && e in Window(ledger, fromMs, toMs) && e.executionTimestamp < d.executionTimestamp ==> e in p.deals)
      && (!p.hasMore || p.deals == [] ==> forall e :: e in Window(ledger, fromMs, toMs) ==> e in p.deals)
  }

  ghost predicate Honest(broker: Broker, ledger: set<Deal>) {
    && (forall d, e :: d in ledger && e in ledger && d.dealId == e.dealId ==> d == e)
    && (forall d :: d in ledger ==> d.executionTimestamp >= 0)
    && (forall fromMs, toMs, n :: HonestPage(broker(fromMs, toMs, n), ledger, fromMs, toMs))
  }

  /** A page that cannot be passed: more is promised, and all it holds sits on the cursor's millisecond. */
  ghost predicate StuckOn(p: Page, fromMs: int) {
    p.Page? && p.hasMore && p.deals != [] && forall d :: d in p.deals ==> d.executionTimestamp == fromMs
  }

  method NewestExecution(deals: seq<Deal>) returns (newest: int)
    ensures newest >= 0
    ensures forall d :: d in deals ==> d.executionTimestamp <= newest
    ensures newest == 0 || exists d :: d in deals && d.executionTimestamp == newest
  {
    newest := 0;
    for i := 0 to |deals|
      invariant newest >= 0
      invariant forall j :: 0 <= j < i ==> deals[j].executionTimestamp <= newest
      invariant newest == 0 || exists d :: d in deals && d.executionTimestamp == newest
    {
      if deals[i].executionTimestamp > newest {
        newest := deals[i].executionTimestamp;
      }
    }
  }

  method AppendUnseenDeals(all: seq<Deal>, seen: set<int>, page: seq<Deal>) returns (all': seq<Deal>, seen': set<int>, added: nat)
    requires DistinctIds(all) && seen == (set d | d in all :: d.dealId)
    ensures DistinctIds(all') && seen' == (set d | d in all' :: d.dealId)
    ensures all <= all' && added == |all'| - |all|
    ensures forall d :: d in all' ==> d in all || d in page
    ensures forall d :: d in page ==> d.dealId in seen'
  {
    all', seen', added := all, seen, 0;
    for i := 0 to |page|
      invariant DistinctIds(all') && seen' == (set d | d in all' :: d.dealId)
      invariant all <= all' && added == |all'| - |all|
      invariant forall d :: d in all' ==> d in all || d in page
      invariant forall j :: 0 <= j < i ==> page[j].dealId in seen'
    {
      if page[i].dealId !in seen' {
        seen' := seen' + {page[i].dealId};
        all' := all' + [page[i]];
        added := added + 1;
      }
    }
  }

  /** What the walk holds against an honest broker: only deals of the window, up to the cursor, and every
      one that executed before the cursor. */
  ghost predicate Walked(all: seq<Deal>, ledger: set<Deal>, start: int, from: int, end: int) {
    && (forall d :: d in all ==> d in Window(ledger, start, end) && d.executionTimestamp <= from)
    && (forall e :: e in Window(ledger, start, end) && e.executionTimestamp < from ==> e in all)
  }

  lemma IdSeenMeansDealSeen(all: seq<Deal>, seen: set<int>, ledger: set<Deal>, d: Deal)
    requires seen == (set x | x in all :: x.dealId)
    requires forall x, y :: x in ledger && y in ledger && x.dealId == y.dealId ==> x == y
    requires forall x :: x in all ==> x in ledger
    requires d in ledger && d.dealId in seen
    ensures d in all
  {
  }

  /** Merging an honest page moves the walk's frontier to the page's newest millisecond. */
  lemma PageAdvances(all: seq<Deal>, all': seq<Deal>, page: seq<Deal>, ledger: set<Deal>, start: int, from: int, end: int, newest: int)
    requires Walked(all, ledger, start, from, end) && start <= from
    requires HonestPage(Page(page, true), ledger, from, end) && page != []
    requires all <= all' && (forall d :: d in all' ==> d in all || d in page) && (forall d :: d in page ==> d in all')
    requires forall d :: d in page ==> d.executionTimestamp <= newest
    requires exists d :: d in page && d.executionTimestamp == newest
    ensures newest >= from && Walked(all', ledger, start, newest, end)
  {
    var top :| top in page && top.executionTimestamp == newest;
    assert top in Window(ledger, from, end);
    forall e | e in Window(ledger, start, end) && e.executionTimestamp < newest
      ensures e in all'
    {
      if e.executionTimestamp < from {
        assert e in all;
      } else {
        assert e in Window(ledger, from, end);
        assert e in page;
      }
    }
  }

  /** An honest page merged by id is merged deal by deal, and ends the walk when it is the last. */
  lemma PageIsMerged(all: seq<Deal>, all': seq<Deal>, seen: set<int>, p: Page, ledger: set<Deal>, start: int, from: int, end: int)
    requires Walked(all, ledger, start, from, end) && start <= from && p.Page? && HonestPage(p, ledger, from, end)
    requires forall x, y :: x in ledger && y in ledger && x.dealId == y.dealId ==> x == y
    requires all <= all' && (forall d :: d in all' ==> d in all || d in p.deals)
    requires seen == (set d | d in all' :: d.dealId) && forall d :: d in p.deals ==> d.dealId in seen
    ensures forall d :: d in all' ==> d in Window(ledger, start, end)
    ensures forall d :: d in p.deals ==> d in all'
    ensures !p.hasMore || p.deals == [] ==> (set d | d in all') == Window(ledger, start, end)
  {
    assert forall d :: d in p.deals ==> d in Window(ledger, from, end);
    forall d | d in p.deals
      ensures d in all'
    {
      IdSeenMeansDealSeen(all', seen, ledger, d);
    }
    if !p.hasMore || p.deals == [] {
      forall e | e in Window(ledger, start, end)
        ensures e in all'
      {
        if e.executionTimestamp >= from {
          assert e in Window(ledger, from, end);
        }
      }
    }
  }

  /** A page that goes on moves the cursor to its newest millisecond; when that is later, a deal was new. */
  lemma PageMoves(all: seq<Deal>, all': seq<Deal>, page: seq<Deal>, ledger: set<Deal>, start: int, from: int, end: int, newest: int)
    requires Walked(all, ledger, start, from, end) && start <= from
    requires HonestPage(Page(page, true), ledger, from, end) && page != []
    requires all <= all' && (forall d :: d in all' ==> d in all || d in page) && (forall d :: d in page ==> d in all')
    requires forall d :: d in ledger ==> d.executionTimestamp >= 0
    requires newest >= 0 && (forall d :: d in page ==> d.executionTimestamp <= newest)
    requires newest == 0 || exists d :: d in page && d.executionTimestamp == newest
    ensures newest >= from && Walked(all', ledger, start, newest, end) && StopsAt(ledger, start, end, newest)
    ensures newest > from ==> |all'| > |all|
  {
    assert page[0] in Window(ledger, from, end);
    PageAdvances(all, all', page, ledger, start, from, end, newest);
    var top :| top in page && top.executionTimestamp == newest;
    assert top in Window(ledger, from, end);
    if newest > from {
      assert top !in all;
    }
  }

  /** Where the walk's cursor can stand: at the start, or at the millisecond of a deal of the window. */
  ghost predicate StopsAt(ledger: set<Deal>, start: int, end: int, from: int) {
    from == start || exists d :: d in Window(ledger, start, end) && d.executionTimestamp == from
  }

  predicate RefusesAt(broker: Broker, reason: string, from: int, end: int, n: nat) {
    broker(from, end, n) == Refused(reason)
  }

  /** Fetches every deal in [start, end] (milliseconds), or refuses. The walk is refused only when the
      broker refuses, when one millisecond cannot be passed, or when the window holds at least as many
      deals as pages are allowed. */
  method GetAllDeals(broker: Broker, start: int, end: int, maxPages: nat, ghost ledger: set<Deal>)
    returns (r: Result<seq<Deal>, WalkError>)
    ensures r.Success? ==> DistinctIds(r.value)
    ensures r.Success? && Honest(broker, ledger) ==> (set d | d in r.value) == Window(ledger, start, end)
    ensures r == Failure(TruncatedHistory) && Honest(broker, ledger) ==>
      || |Window(ledger, start, end)| >= maxPages
      || exists from, n: nat :: n < maxPages && StopsAt(ledger, start, end, from) && StuckOn(broker(from, end, n), from)
    ensures r.Failure? && r.error.BrokerRefused? ==> exists from, n: nat :: n < maxPages && RefusesAt(broker, r.error.reason, from, end, n)
  {
    var from := start;
    var all: seq<Deal>, seen: set<int> := [], {};
    for page := 0 to maxPages
      invariant DistinctIds(all) && seen == (set d | d in all :: d.dealId)
      invariant start <= from || !Honest(broker, ledger)
      invariant Honest(broker, ledger) ==> |all| >= page && Walked(all, ledger, start, from, end)
      invariant page == 0 ==> from == start && all == []
      invariant Honest(broker, ledger) ==> StopsAt(ledger, start, end, from)
    {
      var p := broker(from, end, page);
      if p.Refused? {
        assert RefusesAt(broker, p.reason, from, end, page);
        return Failure(BrokerRefused(p.reason));
      }
      ghost var before := all;
      var added;
      all, seen, added := AppendUnseenDeals(all, seen, p.deals);
      assert Honest(broker, ledger) ==> HonestPage(p, ledger, from, end);
      if Honest(broker, ledger) {
        PageIsMerged(before, all, seen, p, ledger, start, from, end);
      }
      if !p.hasMore || |p.deals| == 0 {
        return Success(all);
      }
      var newest := NewestExecution(p.deals);
      if newest <= from && added == 0 {
        if Honest(broker, ledger) {
          assert StuckOn(p, from);
        }
        return Failure(TruncatedHistory);
      }
      if Honest(broker, ledger) {
        PageMoves(before, all, p.deals, ledger, start, from, end, newest);
      }
      from := newest;
    }
    if Honest(broker, ledger) && maxPages > 0 {
      assert Distinct(all);
      DistinctSubsetBound(all, Window(ledger, start, end));
    }
    return Failure(TruncatedHistory);
  }
}
