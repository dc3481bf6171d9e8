/** The Bybit execution reader, by range halving and, within a second, by cursor. */
module BybitExecutions {
  import opened Clock
  import opened Collections
  import opened Wrappers

  const PAGE_LIMIT: nat := 100
  const WINDOW: int := 7 * DAY
  const MIN_SPLIT: int := SECOND
  const WEEK_MS: int := 604_800_000
  const MAX_PAGES: nat := 50

  /** One row of the execution list; `time` is `execTime` read as milliseconds. */
  datatype Execution = Execution(
    execId: string, symbol: string, side: string, execType: string, execPrice: string,
    execQty: string, execFee: string, execTime: string, closedPnl: string, time: int)

  /** The seven fields the key joins with "|", which none of them contains. */
  datatype RowKey = RowKey(
    execId: string, execTime: string, symbol: string, execType: string, side: string, execQty: string, execFee: string)

  /** The execId alone is not unique: both legs of a hedge-mode funding settlement carry it. */
  function Key(e: Execution): RowKey {
    RowKey(e.execId, e.execTime, e.symbol, e.execType, e.side, e.execQty, e.execFee)
  }

  /** Two rows pass for the same one exactly when they agree in every field that tells executions apart: the legs
      of a hedge-mode settlement, alike in id, time and symbol, differ in side or fee. */
  predicate SameRow(x: Execution, y: Execution) {
    && x.execId == y.execId && x.execTime == y.execTime && x.symbol == y.symbol && x.execType == y.execType
    && x.side == y.side && x.execQty == y.execQty && x.execFee == y.execFee
  }

  lemma KeyTellsRowsApart(x: Execution, y: Execution)
    ensures Key(x) == Key(y) <==> SameRow(x, y)
  {
  }

  datatype Page = Page(rows: seq<Execution>, cursor: string) | Refused(reason: string)

  /** What the venue answers to (startTime, endTime, cursor) on the n-th request: it may answer
      the same question differently each time it is asked. */
  type Venue = (int, int, string, nat) -> Page

  datatype ReadError = VenueRefused(reason: string) | CursorStalled | TooManyPages

  ghost function InRange(ledger: set<Execution>, startMs: int, endMs: int): set<Execution> {
    set e | e in ledger && startMs <= e.time <= endMs
  }

  ghost function Keys(rows: seq<Execution>): set<RowKey> {
    set e | e in rows :: Key(e)
  }

  ghost predicate DistinctKeys(rows: seq<Execution>) {
    forall i, j :: 0 <= i < j < |rows| ==> Key(rows[i]) != Key(rows[j])
  }

  /** The rows a cursor stands after; the empty cursor stands at the start of the range. */
  type Progress = (int, int, string) -> set<Execution>

  ghost function Behind(delivered: Progress, s: int, e: int, cursor: string): set<Execution> {
    if cursor == "" then {} else delivered(s, e, cursor)
  }

  /** The answer to one request keeps the venue's word: its rows lie in the ledger and in the range; a
      first page that is short, an empty later page, or a page without a cursor ends the range; any
      other cursor stands after nothing but rows already handed out. A cursor may stall. */
  ghost predicate HonestPage(p: Page, ledger: set<Execution>, delivered: Progress, s: int, e: int, cursor: string) {
    p.Page? ==>
      var got := Behind(delivered, s, e, cursor) + (set r | r in p.rows);
      && (forall r :: r in p.rows ==> r in InRange(ledger, s, e))
      && (p.cursor == "" || p.rows == [] || (cursor == "" && |p.rows| < 100) ==> InRange(ledger, s, e) <= got)
      && (p.cursor != "" ==> delivered(s, e, p.cursor) <= got)
  }

  ghost predicate Honest(venue: Venue, ledger: set<Execution>, delivered: Progress) {
    forall s, e, cursor, n :: HonestPage(venue(s, e, cursor, n), ledger, delivered, s, e, cursor)
  }

  ghost predicate Covers(seen: set<RowKey>, rows: set<Execution>) {
    forall x :: x in rows ==> Key(x) in seen
  }

  /** What following a cursor has collected: rows of the range, and all that stands behind the cursor. */
  ghost predicate Followed(ledger: set<Execution>, delivered: Progress, s: int, e: int, cursor: string, seen: set<RowKey>, added: seq<Execution>) {
    && (forall x :: x in added ==> x in InRange(ledger, s, e))
    && (if cursor == "" then Covers(seen, InRange(ledger, s, e)) else Covers(seen, delivered(s, e, cursor)))
  }

  /** One more honest page: its rows are merged, and its cursor stands behind nothing else. */
  lemma PageFollows(p: Page, ledger: set<Execution>, delivered: Progress, s: int, e: int, cursor: string,
      seen: set<RowKey>, added: seq<Execution>, more: seq<Execution>)
    requires p.Page? && HonestPage(p, ledger, delivered, s, e, cursor)
    requires cursor != "" ==> Followed(ledger, delivered, s, e, cursor, seen, added)
    requires cursor == "" ==> added == []
    requires forall x :: x in more ==> x in p.rows
    ensures Followed(ledger, delivered, s, e, p.cursor, seen + Keys(p.rows), added + more)
    ensures cursor != "" && p.rows == [] ==> Covers(seen, InRange(ledger, s, e))
  {
  }

  // ---------------------------------------------------------------- why a read fails

  /** The first page of a range is full and goes on. */
  predicate FullAt(venue: Venue, a: int, b: int, n: nat) {
    var p := venue(UnixMilli(a), UnixMilli(b), "", n);
    p.Page? && p.cursor != "" && |p.rows| >= 100
  }

  /** A later page of a range has rows and goes on too. */
  predicate GoesOnAt(venue: Venue, a: int, b: int, cursor: string, n: nat) {
    var p := venue(UnixMilli(a), UnixMilli(b), cursor, n);
    cursor != "" && p.Page? && p.rows != [] && p.cursor != ""
  }

  predicate RefusesAt(venue: Venue, reason: string, s: int, e: int, cursor: string, n: nat) {
    venue(s, e, cursor, n) == Refused(reason)
  }

  /** A range that fills a page and still goes on behind it. */
  ghost predicate Overfull(venue: Venue, a: int, b: int) {
    (exists n :: FullAt(venue, a, b, n)) && exists cursor, n :: GoesOnAt(venue, a, b, cursor, n)
  }

  /** What a failed read of [start, end] means: the venue refused a page, or a second or less of the range is
      overfull, and when its pages ran out it holds a row for each but the first. */
  ghost predicate Explains(venue: Venue, ledger: set<Execution>, delivered: Progress, start: int, end: int, error: ReadError) {
    match error
    case VenueRefused(reason) => exists s, e, cursor, n :: Within(start, end, s, e) && RefusesAt(venue, reason, s, e, cursor, n)
    case CursorStalled => exists a, b :: Narrow(start, end, a, b) && Overfull(venue, a, b)
    case TooManyPages =>
      exists a, b :: Narrow(start, end, a, b) && Overfull(venue, a, b)
        && (Honest(venue, ledger, delivered) ==> |InRange(ledger, UnixMilli(a), UnixMilli(b))| >= 49)
  }

  /** A range of milliseconds inside a range of instants. */
  predicate Within(start: int, end: int, s: int, e: int) {
    UnixMilli(start) <= s <= e <= UnixMilli(end)
  }

  predicate Narrow(start: int, end: int, a: int, b: int) {
    start <= a <= b <= end && b - a <= SECOND
  }

  /** A venue that refuses nothing within a week and whose seconds never fill a page that goes on. */
  ghost predicate Orderly(venue: Venue) {
    && (forall s, e, cursor, n :: s <= e <= s + WEEK_MS ==> venue(s, e, cursor, n).Page?)
    && (forall a, b, n :: a <= b && b - a <= SECOND ==> !FullAt(venue, a, b, n))
  }

  lemma OrderlyExplainsNothing(venue: Venue, ledger: set<Execution>, delivered: Progress, start: int, end: int, error: ReadError)
    requires Orderly(venue) && start <= end <= start + 7 * DAY
    ensures !Explains(venue, ledger, delivered, start, end, error)
  {
    WeekInMillis(start, end);
  }

  lemma ExplainsWider(venue: Venue, ledger: set<Execution>, delivered: Progress, start: int, end: int, a: int, b: int, error: ReadError)
    requires Explains(venue, ledger, delivered, a, b, error) && start <= a && b <= end
    ensures Explains(venue, ledger, delivered, start, end, error)
  {
    match error
    case VenueRefused(reason) =>
      var s, e, cursor, n :| Within(a, b, s, e) && RefusesAt(venue, reason, s, e, cursor, n);
      UnixMilliMonotone(start, a);
      UnixMilliMonotone(b, end);
      assert Within(start, end, s, e);
    case CursorStalled =>
      var x, y :| Narrow(a, b, x, y) && Overfull(venue, x, y);
      assert Narrow(start, end, x, y);
    case TooManyPages =>
      var x, y :| Narrow(a, b, x, y) && Overfull(venue, x, y)
        && (Honest(venue, ledger, delivered) ==> |InRange(ledger, UnixMilli(x), UnixMilli(y))| >= 49);
      assert Narrow(start, end, x, y);
  }

  lemma DistinctKeysBound(rows: seq<Execution>, asked: set<Execution>)
    requires DistinctKeys(rows) && forall x :: x in rows ==> x in asked
    ensures |rows| <= |asked|
  {
    DistinctSubsetBound(rows, asked);
  }

  lemma KeyAppended(rows: seq<Execution>, r: Execution)
    ensures Keys(rows + [r]) == Keys(rows) + {Key(r)}
    ensures DistinctKeys(rows) && Key(r) !in Keys(rows) ==> DistinctKeys(rows + [r])
  {
    assert forall x :: x in rows + [r] <==> x in rows || x == r;
    forall i | 0 <= i < |rows|
      ensures Key(rows[i]) in Keys(rows)
    {
      assert rows[i] in rows;
    }
  }

  /** Part of a page merged: what was kept of it stands behind what there was. */
  ghost predicate Adding(before: seq<Execution>, known: set<RowKey>, rows: seq<Execution>, out: seq<Execution>, seen: set<RowKey>, more: seq<Execution>) {
    && seen == Keys(out) && DistinctKeys(out) && seen == known + Keys(rows)
    && out == before + more && forall x :: x in more ==> x in rows
  }

  lemma AddingStep(before: seq<Execution>, known: set<RowKey>, rows: seq<Execution>, out: seq<Execution>, seen: set<RowKey>, more: seq<Execution>, r: Execution)
    requires Adding(before, known, rows, out, seen, more)
    ensures if Key(r) in seen then Adding(before, known, rows + [r], out, seen, more)
      else Adding(before, known, rows + [r], out + [r], seen + {Key(r)}, more + [r])
  {
    KeyAppended(rows, r);
    KeyAppended(out, r);
    assert out + [r] == before + more + [r] ==> out + [r] == before + (more + [r]);
  }

  class ExecReader {
    var seen: set<RowKey>
    var out: seq<Execution>
    var requests: nat

    ghost predicate Valid()
      reads this
    {
      seen == Keys(out) && DistinctKeys(out)
    }

    constructor ()
      ensures Valid() && out == [] && requests == 0
    {
      seen, out, requests := {}, [], 0;
    }

    /** Afterwards every key of the rows has been seen, and the rows appended are counted. */
    method Add(rows: seq<Execution>) returns (added: nat)
      requires Valid()
      modifies this
      ensures Valid() && requests == old(requests)
      ensures seen == old(seen) + Keys(rows)
      ensures old(out) <= out && added == |out| - |old(out)|
      ensures forall x :: x in out[|old(out)|..] ==> x in rows
    {
      added := 0;
      ghost var more: seq<Execution> := [];
      for i := 0 to |rows|
        invariant requests == old(requests) && added == |more|
        invariant Adding(old(out), old(seen), rows[..i], out, seen, more)
      {
        AddingStep(old(out), old(seen), rows[..i], out, seen, more, rows[i]);
        assert rows[..i + 1] == rows[..i] + [rows[i]];
        var k := Key(rows[i]);
        if k !in seen {
          seen := seen + {k};
          out := out + [rows[i]];
          added := added + 1;
          more := more + [rows[i]];
        }
      }
      assert rows[..|rows|] == rows && out[|old(out)|..] == more;
    }

    method AskPage(venue: Venue, start: int, end: int, cursor: string) returns (p: Page)
      modifies this`requests
      ensures requests == old(requests) + 1
      ensures p == venue(UnixMilli(start), UnixMilli(end), cursor, old(requests))
    {
      p := venue(UnixMilli(start), UnixMilli(end), cursor, requests);
      requests := requests + 1;
    }

    /** Collects [start, end]. Success means the whole range; a failure is explained. */
    method Read(venue: Venue, start: int, end: int, ghost ledger: set<Execution>, ghost delivered: Progress)
      returns (r: Outcome<ReadError>)
      requires Valid() && start <= end
      modifies this
      ensures Valid() && old(out) <= out && old(seen) <= seen
      ensures Honest(venue, ledger, delivered) ==>
        && (r.Pass? ==> Covers(seen, InRange(ledger, UnixMilli(start), UnixMilli(end))))
        && (forall x :: x in out[|old(out)|..] ==> x in InRange(ledger, UnixMilli(start), UnixMilli(end)))
      ensures r.Fail? ==> Explains(venue, ledger, delivered, start, end, r.error)
      decreases end - start, 1
    {
      ghost var n := requests;
      var p := AskPage(venue, start, end, "");
      assert Honest(venue, ledger, delivered) ==>
        HonestPage(p, ledger, delivered, UnixMilli(start), UnixMilli(end), "");
      if p.Refused? {
        UnixMilliMonotone(start, end);
        assert Within(start, end, UnixMilli(start), UnixMilli(end)) && RefusesAt(venue, p.reason, UnixMilli(start), UnixMilli(end), "", n);
        return Fail(VenueRefused(p.reason));
      }
      if p.cursor == "" || |p.rows| < PAGE_LIMIT {
        var _ := Add(p.rows);
        return Pass;
      }
      if end - start > MIN_SPLIT {
        r := ReadHalves(venue, start, end, ledger, delivered);
      } else {
        assert FullAt(venue, start, end, n);
        r := Follow(venue, start, end, p.rows, p.cursor, ledger, delivered);
      }
    }

    /** Both halves, the midpoint in each, or the failure of one. */
    method ReadHalves(venue: Venue, start: int, end: int, ghost ledger: set<Execution>, ghost delivered: Progress)
      returns (r: Outcome<ReadError>)
      requires Valid() && end - start > SECOND
      modifies this
      ensures Valid() && old(out) <= out && old(seen) <= seen
      ensures Honest(venue, ledger, delivered) ==>
        && (r.Pass? ==> Covers(seen, InRange(ledger, UnixMilli(start), UnixMilli(end))))
        && (forall x :: x in out[|old(out)|..] ==> x in InRange(ledger, UnixMilli(start), UnixMilli(end)))
      ensures r.Fail? ==> Explains(venue, ledger, delivered, start, end, r.error)
      decreases end - start, 0
    {
      var mid := start + (end - start) / 2;
      UnixMilliMonotone(start, mid);
      UnixMilliMonotone(mid, end);
      r := Read(venue, start, mid, ledger, delivered);
      if r.Fail? {
        ExplainsWider(venue, ledger, delivered, start, end, start, mid, r.error);
        return;
      }
      ghost var half := out;
      r := Read(venue, mid, end, ledger, delivered);
      if r.Fail? {
        ExplainsWider(venue, ledger, delivered, start, end, mid, end, r.error);
      }
      assert out[|old(out)|..] == half[|old(out)|..] + out[|half|..];
    }

    /** Asks for the page behind a cursor and merges it: the next cursor, empty at the end of the range. */
    method FollowPage(venue: Venue, start: int, end: int, cursor: string, ghost base: nat,
                      ghost ledger: set<Execution>, ghost delivered: Progress)
      returns (r: Result<string, ReadError>)
      requires Valid() && cursor != "" && base <= |out| && start <= end
      modifies this
      ensures Valid() && old(out) <= out && old(seen) <= seen
      ensures r.Success? && r.value != "" ==> |out| > |old(out)|
      ensures (r.Success? && r.value != "") || r == Failure(CursorStalled) ==> exists c, n :: GoesOnAt(venue, start, end, c, n)
      ensures r.Failure? ==> r.error != TooManyPages && (r.error.VenueRefused? ==> Explains(venue, ledger, delivered, start, end, r.error))
      ensures Honest(venue, ledger, delivered) && Followed(ledger, delivered, UnixMilli(start), UnixMilli(end), cursor, old(seen), old(out)[base..]) ==>
        && (r.Success? ==> Followed(ledger, delivered, UnixMilli(start), UnixMilli(end), r.value, seen, out[base..]))
        && (forall x :: x in out[base..] ==> x in InRange(ledger, UnixMilli(start), UnixMilli(end)))
    {
      ghost var s, e, n := UnixMilli(start), UnixMilli(end), requests;
      ghost var follows := Honest(venue, ledger, delivered) && Followed(ledger, delivered, s, e, cursor, seen, out[base..]);
      var p := AskPage(venue, start, end, cursor);
      assert follows ==> HonestPage(p, ledger, delivered, s, e, cursor);
      if p.Refused? {
        UnixMilliMonotone(start, end);
        assert Within(start, end, s, e) && RefusesAt(venue, p.reason, s, e, cursor, n);
        return Failure(VenueRefused(p.reason));
      }
      if |p.rows| == 0 {
        if follows {
          PageFollows(p, ledger, delivered, s, e, cursor, seen, out[base..], []);
        }
        return Success("");
      }
      assert p.cursor != "" ==> GoesOnAt(venue, start, end, cursor, n);
      if p.cursor == cursor {
        return Failure(CursorStalled);
      }
      var added := Add(p.rows);
      if follows {
        PageFollows(p, ledger, delivered, s, e, cursor, old(seen), old(out)[base..], out[|old(out)|..]);
        assert old(out)[base..] + out[|old(out)|..] == out[base..];
      }
      if added == 0 && p.cursor != "" {
        return Failure(CursorStalled);
      }
      return Success(p.cursor);
    }

    /** Reads a narrow range page after page behind its full first page. A failure is explained. */
    method Follow(venue: Venue, start: int, end: int, rows: seq<Execution>, first: string,
                  ghost ledger: set<Execution>, ghost delivered: Progress)
      returns (r: Outcome<ReadError>)
      requires Valid() && Narrow(start, end, start, end) && exists n :: FullAt(venue, start, end, n)
      requires Honest(venue, ledger, delivered) ==>
        HonestPage(Page(rows, first), ledger, delivered, UnixMilli(start), UnixMilli(end), "")
      modifies this
      ensures Valid() && old(out) <= out && old(seen) <= seen
      ensures Honest(venue, ledger, delivered) ==>
        && (r.Pass? ==> Covers(seen, InRange(ledger, UnixMilli(start), UnixMilli(end))))
        && (forall x :: x in out[|old(out)|..] ==> x in InRange(ledger, UnixMilli(start), UnixMilli(end)))
      ensures r.Fail? ==> Explains(venue, ledger, delivered, start, end, r.error)
    {
      ghost var s, e, base := UnixMilli(start), UnixMilli(end), |out|;
      ghost var honest := Honest(venue, ledger, delivered);
      var _ := Add(rows);
      var cursor := first;
      var page: nat := 1;
      if honest {
        PageFollows(Page(rows, first), ledger, delivered, s, e, "", old(seen), [], out[base..]);
        assert [] + out[base..] == out[base..];
      }
      while cursor != ""
        invariant Valid() && old(out) <= out && old(seen) <= seen && page <= MAX_PAGES
        invariant cursor != "" ==> |out| >= base + page - 1
        invariant page > 1 && cursor != "" ==> exists c, n :: GoesOnAt(venue, start, end, c, n)
        invariant honest ==> Followed(ledger, delivered, s, e, cursor, seen, out[base..])
        decreases MAX_PAGES - page
      {
        if page >= MAX_PAGES {
          if honest {
            DistinctKeysBound(out[base..], InRange(ledger, s, e));
          }
          return Fail(TooManyPages);
        }
        var next := FollowPage(venue, start, end, cursor, base, ledger, delivered);
        if next.Failure? {
          return Fail(next.error);
        }
        cursor := next.value;
        page := page + 1;
      }
      return Pass;
    }
  }

  /** Every execution of [start, end] under its key, once, or the reason there is none. */
  method Executions(venue: Venue, start: int, end: int, ghost ledger: set<Execution>, ghost delivered: Progress)
    returns (r: Result<seq<Execution>, ReadError>)
    ensures r.Success? ==> DistinctKeys(r.value)
    ensures r.Success? && start >= end ==> r.value == []
    ensures r.Success? && start < end && Honest(venue, ledger, delivered) ==>
      var asked := InRange(ledger, UnixMilli(start), UnixMilli(end));
      && (forall x :: x in r.value ==> x in asked)
      && Keys(r.value) == (set x | x in asked :: Key(x))
      && (forall x :: x in asked ==> Returns(r.value, x))
    ensures r.Success? ==> forall i, j :: 0 <= i < j < |r.value| ==> !SameRow(r.value[i], r.value[j])
    ensures r.Failure? ==> exists a, b :: start <= a <= b <= end && b - a <= 7 * DAY && Explains(venue, ledger, delivered, a, b, r.error)
    ensures Orderly(venue) ==> r.Success?
  {
    var reader := new ExecReader();
    var winStart := start;
    while winStart < end
      invariant fresh(reader) && reader.Valid()
      invariant start >= end ==> reader.out == []
      invariant start <= winStart || start >= end
      invariant Honest(venue, ledger, delivered) && start < end ==>
        && (winStart > start ==> Covers(reader.seen, InRange(ledger, UnixMilli(start), UnixMilli(if winStart < end then winStart else end))))
        && (forall x :: x in reader.out ==> x in InRange(ledger, UnixMilli(start), UnixMilli(end)))
      decreases end - winStart
    {
      var winEnd := winStart + WINDOW;
      if winEnd > end {
        winEnd := end;
      }
      UnixMilliMonotone(start, winStart);
      UnixMilliMonotone(winStart, winEnd);
      UnixMilliMonotone(winEnd, end);
      ghost var before := reader.out;
      var outcome := reader.Read(venue, winStart, winEnd, ledger, delivered);
      if outcome.Fail? {
        if Orderly(venue) {
          OrderlyExplainsNothing(venue, ledger, delivered, winStart, winEnd, outcome.error);
        }
        return Failure(outcome.error);
      }
      assert reader.out == before + reader.out[|before|..];
      winStart := winStart + WINDOW;
    }
    r := Success(reader.out);
    NoRowTwice(reader.out);
    if start < end && Honest(venue, ledger, delivered) {
      ghost var asked := InRange(ledger, UnixMilli(start), UnixMilli(end));
      assert Keys(r.value) == (set x | x in asked :: Key(x));
      forall x | x in asked
        ensures Returns(r.value, x)
      {
        EveryRowIsReturned(r.value, asked, x);
      }
    }
  }

  ghost predicate Returns(rows: seq<Execution>, x: Execution) {
    exists i :: 0 <= i < |rows| && SameRow(rows[i], x)
  }

  lemma NoRowTwice(rows: seq<Execution>)
    requires DistinctKeys(rows)
    ensures forall i, j :: 0 <= i < j < |rows| ==> !SameRow(rows[i], rows[j])
  {
    forall i, j | 0 <= i < j < |rows|
      ensures !SameRow(rows[i], rows[j])
    {
      KeyTellsRowsApart(rows[i], rows[j]);
    }
  }

  /** What a successful read returns, told by the rows' own fields: only rows of the range, no two the same, and for
      every row of the range one that is the same. Both legs of a settlement are there. */
  lemma EveryRowIsReturned(rows: seq<Execution>, asked: set<Execution>, x: Execution)
    requires DistinctKeys(rows) && Keys(rows) == (set y | y in asked :: Key(y)) && x in asked
    ensures exists i :: 0 <= i < |rows| && SameRow(rows[i], x)
    ensures forall i, j :: 0 <= i < j < |rows| ==> !SameRow(rows[i], rows[j])
  {
    assert Key(x) in Keys(rows);
    var y :| y in rows && Key(y) == Key(x);
    var i :| 0 <= i < |rows| && rows[i] == y;
    KeyTellsRowsApart(rows[i], x);
    forall i, j | 0 <= i < j < |rows|
      ensures !SameRow(rows[i], rows[j])
    {
      KeyTellsRowsApart(rows[i], rows[j]);
    }
  }

  lemma BothLegsAreReturned(rows: seq<Execution>, asked: set<Execution>, x: Execution, y: Execution)
    requires DistinctKeys(rows) && Keys(rows) == (set z | z in asked :: Key(z)) && x in asked && y in asked && !SameRow(x, y)
    ensures exists i, j :: 0 <= i < |rows| && 0 <= j < |rows| && i != j && SameRow(rows[i], x) && SameRow(rows[j], y)
  {
    EveryRowIsReturned(rows, asked, x);
    EveryRowIsReturned(rows, asked, y);
    var i :| 0 <= i < |rows| && SameRow(rows[i], x);
    var j :| 0 <= j < |rows| && SameRow(rows[j], y);
    assert i != j;
  }

  /** When the venue never gives two rows of the range one key, nothing is lost to the key: the rows
      returned are the rows asked for, each once. */
  lemma DistinctLedgerKeysGiveTheLedger(rows: seq<Execution>, asked: set<Execution>)
    requires forall x :: x in rows ==> x in asked
    requires Keys(rows) == (set x | x in asked :: Key(x))
    requires forall x, y :: x in asked && y in asked && Key(x) == Key(y) ==> x == y
    ensures (set x | x in rows) == asked
  {
    forall x | x in asked
      ensures x in rows
    {
      assert Key(x) in Keys(rows);
    }
  }
}
