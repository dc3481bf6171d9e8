/** The USD-M fill reader, which splits every range whose page comes back full. */
module BinanceFills {
  import opened Clock
  import opened Collections
  import opened Wrappers

  const PAGE_LIMIT: nat := 1000
  const WINDOW: int := 7 * DAY
  const MIN_SPLIT: int := SECOND
  const WEEK_MS: int := 604_800_000

  datatype Fill = Fill(id: int, symbol: string, price: string, qty: string, commission: string, time: int, side: string, realizedPnl: string)

  datatype Page = Page(fills: seq<Fill>) | Refused(reason: string)

  /** What the venue answers to (startTime, endTime) on the n-th request. */
  type Venue = (int, int, nat) -> Page

  datatype ReadError = VenueRefused(reason: string) | OverfullSecond

  ghost function InRange(ledger: set<Fill>, startMs: int, endMs: int): set<Fill> {
    set f | f in ledger && startMs <= f.time <= endMs
  }

  ghost predicate DistinctIds(fills: seq<Fill>) {
    forall i, j :: 0 <= i < j < |fills| ==> fills[i].id != fills[j].id
  }

  ghost predicate IdsIdentify(ledger: set<Fill>) {
    forall f, g :: f in ledger && g in ledger && f.id == g.id ==> f == g
  }

  /** A page holds distinct fills of the range, and all of them when it is short. */
  ghost predicate HonestPage(p: Page, ledger: set<Fill>, s: int, e: int) {
    p.Page? ==>
      && DistinctIds(p.fills)
      && (forall f :: f in p.fills ==> f in InRange(ledger, s, e))
      && (|p.fills| < 1000 ==> InRange(ledger, s, e) == (set f | f in p.fills))
  }

  ghost predicate Honest(venue: Venue, ledger: set<Fill>) {
    && IdsIdentify(ledger)
    && forall s, e, n :: HonestPage(venue(s, e, n), ledger, s, e)
  }

  function Midpoint(from: int, until: int): int {
    from + (until - from) / 2
  }

  /** Whether halving [from, until] ends with every piece under the page limit. */
  ghost predicate Readable(ledger: set<Fill>, from: int, until: int)
    decreases until - from
  {
    || |InRange(ledger, UnixMilli(from), UnixMilli(until))| < 1000
    || (until - from > SECOND
        && Readable(ledger, from, Midpoint(from, until))
        && Readable(ledger, Midpoint(from, until), until))
  }

  /** An honest page shows whether its range is readable as it stands. */
  lemma PageSettlesRange(p: Page, ledger: set<Fill>, from: int, until: int)
    requires p.Page? && HonestPage(p, ledger, UnixMilli(from), UnixMilli(until))
    ensures |p.fills| < 1000 <==> |InRange(ledger, UnixMilli(from), UnixMilli(until))| < 1000
  {
    DistinctSubsetBound(p.fills, InRange(ledger, UnixMilli(from), UnixMilli(until)));
  }

  ghost predicate Covers(seen: set<int>, fills: set<Fill>) {
    forall f :: f in fills ==> f.id in seen
  }

  /** Two halves that share their midpoint make up the range. */
  lemma HalvesCover(seen: set<int>, ledger: set<Fill>, from: int, mid: int, until: int)
    requires from <= mid <= until
    requires Covers(seen, InRange(ledger, UnixMilli(from), UnixMilli(mid)))
    requires Covers(seen, InRange(ledger, UnixMilli(mid), UnixMilli(until)))
    ensures Covers(seen, InRange(ledger, UnixMilli(from), UnixMilli(until)))
  {
  }

  /** The reader gives up only on a range of one second or less that holds a full page of fills. */
  lemma {:induction false} UnreadableHasAFullSecond(ledger: set<Fill>, from: int, until: int) returns (a: int, b: int)
    requires from <= until && !Readable(ledger, from, until)
    ensures from <= a <= b <= until && b - a <= SECOND
    ensures |InRange(ledger, UnixMilli(a), UnixMilli(b))| >= 1000
    decreases until - from
  {
    if until - from <= MIN_SPLIT {
      a, b := from, until;
    } else if !Readable(ledger, from, Midpoint(from, until)) {
      a, b := UnreadableHasAFullSecond(ledger, from, Midpoint(from, until));
    } else {
      a, b := UnreadableHasAFullSecond(ledger, Midpoint(from, until), until);
    }
  }

  // ---------------------------------------------------------------- why a read fails

  predicate RefusesAt(venue: Venue, reason: string, s: int, e: int, n: nat) {
    venue(s, e, n) == Refused(reason)
  }

  predicate FullAt(venue: Venue, a: int, b: int, n: nat) {
    var p := venue(UnixMilli(a), UnixMilli(b), n);
    p.Page? && |p.fills| >= 1000
  }

  /** A range of milliseconds inside a range of instants. */
  predicate Within(from: int, until: int, s: int, e: int) {
    UnixMilli(from) <= s <= e <= UnixMilli(until)
  }

  predicate Narrow(from: int, until: int, a: int, b: int) {
    from <= a <= b <= until && b - a <= SECOND
  }

  /** What a failed read of [from, until] means: a refused page, or a second or less that fills one. */
  ghost predicate Explains(venue: Venue, from: int, until: int, error: ReadError) {
    match error
    case VenueRefused(reason) => exists s, e, n :: Within(from, until, s, e) && RefusesAt(venue, reason, s, e, n)
    case OverfullSecond => exists a, b, n :: Narrow(from, until, a, b) && FullAt(venue, a, b, n)
  }

  lemma ExplainsWider(venue: Venue, from: int, until: int, a: int, b: int, error: ReadError)
    requires Explains(venue, a, b, error) && from <= a && b <= until
    ensures Explains(venue, from, until, error)
  {
    if error.VenueRefused? {
      var s, e, n :| Within(a, b, s, e) && RefusesAt(venue, error.reason, s, e, n);
      UnixMilliMonotone(from, a);
      UnixMilliMonotone(b, until);
      assert Within(from, until, s, e);
    } else {
      var x, y, n :| Narrow(a, b, x, y) && FullAt(venue, x, y, n);
      assert Narrow(from, until, x, y);
    }
  }

  /** A venue that refuses nothing within a week and never fills a page with a second. */
  ghost predicate Orderly(venue: Venue) {
    && (forall s, e, n :: s <= e <= s + WEEK_MS ==> venue(s, e, n).Page?)
    && (forall a, b, n :: a <= b && b - a <= SECOND ==> !FullAt(venue, a, b, n))
  }

  lemma OrderlyExplainsNothing(venue: Venue, from: int, until: int, error: ReadError)
    requires Orderly(venue) && from <= until <= from + 7 * DAY
    ensures !Explains(venue, from, until, error)
  {
    WeekInMillis(from, until);
  }

  lemma IdAppended(fills: seq<Fill>, f: Fill)
    requires DistinctIds(fills) && f.id !in (set g | g in fills :: g.id)
    ensures DistinctIds(fills + [f])
    ensures (set g | g in fills + [f] :: g.id) == (set g | g in fills :: g.id) + {f.id}
  {
    assert forall g :: g in fills + [f] <==> g in fills || g == f;
  }

  /** `seen` and `fills` as the recursive closure of getFuturesTrades shares them. */
  class FillReader {
    var seen: set<int>
    var fills: seq<Fill>
    var requests: nat

    ghost predicate Valid()
      reads this
    {
      seen == (set f | f in fills :: f.id) && DistinctIds(fills)
    }

    constructor ()
      ensures Valid() && fills == [] && requests == 0
    {
      seen, fills, requests := {}, [], 0;
    }

    method Add(page: seq<Fill>)
      requires Valid()
      modifies this
      ensures Valid() && requests == old(requests)
      ensures old(fills) <= fills && seen == old(seen) + (set f | f in page :: f.id)
      ensures forall f :: f in fills[|old(fills)|..] ==> f in page
    {
      for i := 0 to |page|
        invariant Valid() && requests == old(requests)
        invariant old(fills) <= fills && seen == old(seen) + (set f | f in page[..i] :: f.id)
        invariant forall f :: f in fills[|old(fills)|..] ==> f in page
      {
        assert page[..i + 1] == page[..i] + [page[i]];
        if page[i].id !in seen {
          IdAppended(fills, page[i]);
          seen := seen + {page[i].id};
          fills := fills + [page[i]];
        }
      }
      assert page[..|page|] == page;
    }

    /** Against an honest venue a read that is not refused succeeds exactly on the readable ranges,
        and a success holds the whole range. */
    method Read(venue: Venue, from: int, until: int, ghost ledger: set<Fill>) returns (r: Outcome<ReadError>)
      requires Valid() && from <= until
      modifies this
      ensures Valid() && old(fills) <= fills && old(seen) <= seen
      ensures Honest(venue, ledger) ==>
        forall f :: f in fills[|old(fills)|..] ==> f in InRange(ledger, UnixMilli(from), UnixMilli(until))
      ensures Honest(venue, ledger) && r.Pass? ==>
        Covers(seen, InRange(ledger, UnixMilli(from), UnixMilli(until))) && Readable(ledger, from, until)
      ensures Honest(venue, ledger) && r == Fail(OverfullSecond) ==> !Readable(ledger, from, until)
      ensures r.Fail? ==> Explains(venue, from, until, r.error)
      decreases until - from
    {
      ghost var n := requests;
      var p := venue(UnixMilli(from), UnixMilli(until), requests);
      requests := requests + 1;
      if p.Refused? {
        UnixMilliMonotone(from, until);
        assert Within(from, until, UnixMilli(from), UnixMilli(until)) && RefusesAt(venue, p.reason, UnixMilli(from), UnixMilli(until), n);
        return Fail(VenueRefused(p.reason));
      }
      if Honest(venue, ledger) {
        assert HonestPage(p, ledger, UnixMilli(from), UnixMilli(until));
        PageSettlesRange(p, ledger, from, until);
      }
      if |p.fills| >= PAGE_LIMIT && until - from > MIN_SPLIT {
        r := ReadHalves(venue, from, until, ledger);
        return;
      }
      if |p.fills| >= PAGE_LIMIT {
        assert Narrow(from, until, from, until) && FullAt(venue, from, until, n);
        return Fail(OverfullSecond);
      }
      Add(p.fills);
      return Pass;
    }

    method ReadHalves(venue: Venue, from: int, until: int, ghost ledger: set<Fill>) returns (r: Outcome<ReadError>)
      requires Valid() && until - from > SECOND
      modifies this
      ensures Valid() && old(fills) <= fills && old(seen) <= seen
      ensures Honest(venue, ledger) ==>
        forall f :: f in fills[|old(fills)|..] ==> f in InRange(ledger, UnixMilli(from), UnixMilli(until))
      ensures Honest(venue, ledger) && r.Pass? ==>
        && Covers(seen, InRange(ledger, UnixMilli(from), UnixMilli(until)))
        && Readable(ledger, from, Midpoint(from, until)) && Readable(ledger, Midpoint(from, until), until)
      ensures Honest(venue, ledger) && r == Fail(OverfullSecond) ==>
        !(Readable(ledger, from, Midpoint(from, until)) && Readable(ledger, Midpoint(from, until), until))
      ensures r.Fail? ==> Explains(venue, from, until, r.error)
      decreases until - from, 0
    {
      var mid := Midpoint(from, until);
      UnixMilliMonotone(from, mid);
      UnixMilliMonotone(mid, until);
      r := Read(venue, from, mid, ledger);
      if r.Fail? {
        ExplainsWider(venue, from, until, from, mid, r.error);
        return;
      }
      ghost var half := fills;
      r := Read(venue, mid, until, ledger);
      if r.Fail? {
        ExplainsWider(venue, from, until, mid, until, r.error);
      }
      assert fills[|old(fills)|..] == half[|old(fills)|..] + fills[|half|..];
      if r.Pass? && Honest(venue, ledger) {
        HalvesCover(seen, ledger, from, mid, until);
      }
    }
  }

  /** The fills of [start, end], each id once; an overfull error names a crowded second. */
  method FuturesFills(venue: Venue, start: int, end: int, ghost ledger: set<Fill>) returns (r: Result<seq<Fill>, ReadError>)
    ensures r.Success? ==> DistinctIds(r.value)
    ensures r.Success? && start >= end ==> r.value == []
    ensures r.Success? && start < end && Honest(venue, ledger) ==>
      (set f | f in r.value) == InRange(ledger, UnixMilli(start), UnixMilli(end))
    ensures r == Failure(OverfullSecond) && Honest(venue, ledger) ==>
      exists a, b :: start <= a <= b <= end && b - a <= SECOND
        && |InRange(ledger, UnixMilli(a), UnixMilli(b))| >= 1000
    ensures r.Failure? ==> exists a, b :: start <= a <= b <= end && b - a <= 7 * DAY && Explains(venue, a, b, r.error)
    ensures Orderly(venue) ==> r.Success?
  {
    var reader := new FillReader();
    var winStart := start;
    while winStart < end
      invariant fresh(reader) && reader.Valid()
      invariant start >= end ==> reader.fills == []
      invariant start <= winStart || start >= end
      invariant Honest(venue, ledger) && start < end ==>
        && (winStart > start ==>
            forall f :: f in InRange(ledger, UnixMilli(start), UnixMilli(if winStart < end then winStart else end)) ==> f.id in reader.seen)
        && (forall f :: f in reader.fills ==> f in InRange(ledger, UnixMilli(start), UnixMilli(end)))
      decreases end - winStart
    {
      var winEnd := winStart + WINDOW;
      if winEnd > end {
        winEnd := end;
      }
      UnixMilliMonotone(start, winStart);
      UnixMilliMonotone(winStart, winEnd);
      UnixMilliMonotone(winEnd, end);
      ghost var before := reader.fills;
      var outcome := reader.Read(venue, winStart, winEnd, ledger);
      if outcome.Fail? {
        if Orderly(venue) {
          OrderlyExplainsNothing(venue, winStart, winEnd, outcome.error);
        }
        if outcome.error == OverfullSecond && Honest(venue, ledger) {
          ghost var a, b := UnreadableHasAFullSecond(ledger, winStart, winEnd);
        }
        return Failure(outcome.error);
      }
      assert reader.fills == before + reader.fills[|before|..];
      winStart := winStart + WINDOW;
    }
    r := Success(reader.fills);
  }
}
