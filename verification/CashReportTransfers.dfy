/** Transfers per day, summed from IBKR's Cash Report. */
module CashReportTransfers {
  import opened FlexStatement
  import opened Wrappers

  /** A line of the report; the deposits are `None` where the report leaves them out. */
  datatype CashRow = CashRow(
    currency: string, fromDate: string, toDate: string,
    internalTransfers: string, accountTransfers: string, depositWithdrawals: Option<string>)

  type Parser = string -> Option<real>

  /** ParseFloat with its error ignored. */
  function Read(parse: Parser, v: string): real {
    if parse(v).Some? then parse(v).value else 0.0
  }

  /** The day of a base-currency summary row whose dates agree, `None` for every other row. */
  function CoveredDay(r: CashRow): Option<string> {
    var first, last := FlexDay(r.fromDate), FlexDay(r.toDate);
    if r.currency == "BASE_SUMMARY" && first.Some? && last.Some? && first == last then first else None
  }

  function RowFlow(parse: Parser, r: CashRow): real {
    Read(parse, r.internalTransfers) + Read(parse, r.accountTransfers)
      + if r.depositWithdrawals.Some? then Read(parse, r.depositWithdrawals.value) else 0.0
  }

  function DayTotal(parse: Parser, rows: seq<CashRow>, day: string): real {
    if rows == [] then 0.0
    else
      var r := rows[|rows| - 1];
      DayTotal(parse, rows[..|rows| - 1], day) + if CoveredDay(r) == Some(day) then RowFlow(parse, r) else 0.0
  }

  /** A row has a day only as the base summary, and then it is the one day that both of its dates read as. */
  lemma CoveredDayIff(r: CashRow, day: string)
    ensures CoveredDay(r) == Some(day) <==>
      r.currency == "BASE_SUMMARY" && FlexDay(r.fromDate) == Some(day) && FlexDay(r.toDate) == Some(day)
  {
  }

  /** A text is worth what it parses to, and nothing when it does not. */
  ghost predicate Worth(parse: Parser, text: string, x: real) {
    parse(text) == Some(x) || (parse(text).None? && x == 0.0)
  }

  /** A row moves its internal transfers, its account transfers, and its deposits less withdrawals where listed. */
  lemma RowFlowIs(parse: Parser, r: CashRow, internal: real, account: real, deposits: real)
    requires Worth(parse, r.internalTransfers, internal) && Worth(parse, r.accountTransfers, account)
    requires if r.depositWithdrawals.Some? then Worth(parse, r.depositWithdrawals.value, deposits) else deposits == 0.0
    ensures RowFlow(parse, r) == internal + account + deposits
  {
  }

  /** One row alone books its flow on its day and nothing elsewhere; several book what each does. */
  lemma DayTotalOfOne(parse: Parser, r: CashRow, day: string)
    ensures DayTotal(parse, [r], day) == if CoveredDay(r) == Some(day) then RowFlow(parse, r) else 0.0
  {
    assert [r][..0] == [];
  }

  ghost predicate Covered(rows: seq<CashRow>, day: string) {
    exists r :: r in rows && CoveredDay(r) == Some(day)
  }

  function Lookup(days: map<string, real>, day: string): real {
    if day in days then days[day] else 0.0
  }

  /** The days of a report, and what moved on each. */
  ghost predicate Summed(parse: Parser, rows: seq<CashRow>, days: map<string, real>) {
    forall day :: (day in days <==> Covered(rows, day)) && Lookup(days, day) == DayTotal(parse, rows, day)
  }

  ghost predicate HasDeposits(rows: seq<CashRow>) {
    exists r :: r in rows && CoveredDay(r).Some? && r.depositWithdrawals.Some?
  }

  lemma RowIsSummed(parse: Parser, rows: seq<CashRow>, days: map<string, real>, r: CashRow)
    requires Summed(parse, rows, days)
    ensures CoveredDay(r).None? ==> Summed(parse, rows + [r], days)
    ensures CoveredDay(r).Some? ==>
      Summed(parse, rows + [r], days[CoveredDay(r).value := Lookup(days, CoveredDay(r).value) + RowFlow(parse, r)])
  {
    var all := rows + [r];
    assert all[..|rows|] == rows;
    forall day
      ensures Covered(all, day) <==> Covered(rows, day) || CoveredDay(r) == Some(day)
    {
      assert r in all;
    }
  }

  lemma DepositsOneMore(rows: seq<CashRow>, r: CashRow)
    ensures HasDeposits(rows + [r]) <==> HasDeposits(rows) || (CoveredDay(r).Some? && r.depositWithdrawals.Some?)
  {
    assert forall x :: x in rows + [r] <==> x in rows || x == r;
  }

  /** One row's flow goes to its day. */
  method BookRow(parse: Parser, r: CashRow, day: string, before: map<string, real>) returns (days: map<string, real>)
    ensures days == before[day := Lookup(before, day) + RowFlow(parse, r)]
  {
    var transfers := Read(parse, r.internalTransfers) + Read(parse, r.accountTransfers);
    days := before[day := Lookup(before, day) + transfers];
    if r.depositWithdrawals.Some? {
      days := days[day := days[day] + Read(parse, r.depositWithdrawals.value)];
    }
  }

  method DailyCashReportTransfers(parse: Parser, rows: seq<CashRow>) returns (days: map<string, real>, datesDeposits: bool)
    ensures Summed(parse, rows, days)
    ensures datesDeposits <==> HasDeposits(rows)
  {
    days, datesDeposits := map[], false;
    for i := 0 to |rows|
      invariant Summed(parse, rows[..i], days)
      invariant datesDeposits <==> HasDeposits(rows[..i])
    {
      var r := rows[i];
      RowIsSummed(parse, rows[..i], days, r);
      DepositsOneMore(rows[..i], r);
      assert rows[..i + 1] == rows[..i] + [r];
      var day := CoveredDay(r);
      if day.None? {
        continue;
      }
      days := BookRow(parse, r, day.value, days);
      if r.depositWithdrawals.Some? {
        datesDeposits := true;
      }
    }
    assert rows[..|rows|] == rows;
  }

  lemma {:induction false} DayTotalOfConcat(parse: Parser, a: seq<CashRow>, b: seq<CashRow>, day: string)
    ensures DayTotal(parse, a + b, day) == DayTotal(parse, a, day) + DayTotal(parse, b, day)
  {
    if b == [] {
      assert a + b == a;
    } else {
      assert (a + b)[..|a + b| - 1] == a + b[..|b| - 1];
      DayTotalOfConcat(parse, a, b[..|b| - 1], day);
    }
  }

  /** What a row adds to a day. */
  function Share(parse: Parser, r: CashRow, day: string): real {
    if CoveredDay(r) == Some(day) then RowFlow(parse, r) else 0.0
  }

  lemma {:induction false} DayTotalOfUpdate(parse: Parser, rows: seq<CashRow>, i: nat, r: CashRow, day: string)
    requires i < |rows|
    ensures DayTotal(parse, rows[i := r], day) == DayTotal(parse, rows, day) - Share(parse, rows[i], day) + Share(parse, r, day)
  {
    var n := |rows| - 1;
    if i < n {
      DayTotalOfUpdate(parse, rows[..n], i, r, day);
      assert rows[i := r][..n] == rows[..n][i := r];
    } else {
      assert rows[i := r][..n] == rows[..n];
    }
  }

  /** The row once its internal transfers read x more. */
  predicate Moved(parse: Parser, was: CashRow, now: CashRow, x: real) {
    now == was.(internalTransfers := now.internalTransfers)
    && Read(parse, now.internalTransfers) == Read(parse, was.internalTransfers) + x
  }

  lemma MovedShare(parse: Parser, was: CashRow, now: CashRow, x: real, day: string)
    requires Moved(parse, was, now, x)
    ensures Share(parse, now, day) == Share(parse, was, day) + if CoveredDay(was) == Some(day) then x else 0.0
  {
  }

  /** A sweep takes x from a row of one segment's report and adds it to a row of the other's. */
  ghost predicate Sweeps(parse: Parser, base: seq<CashRow>, i: nat, sent: CashRow, segment: seq<CashRow>, j: nat, received: CashRow, x: real) {
    i < |base| && j < |segment| && Moved(parse, base[i], sent, -x) && Moved(parse, segment[j], received, x)
  }

  /** What a sweep does to a day of the consolidated report, which carries the rows of both. */
  lemma SweptTotal(parse: Parser, base: seq<CashRow>, i: nat, sent: CashRow, segment: seq<CashRow>, j: nat, received: CashRow, x: real, day: string)
    requires Sweeps(parse, base, i, sent, segment, j, received, x)
    ensures DayTotal(parse, base[i := sent] + segment[j := received], day) == DayTotal(parse, base + segment, day)
      - (if CoveredDay(base[i]) == Some(day) then x else 0.0) + (if CoveredDay(segment[j]) == Some(day) then x else 0.0)
  {
    DayTotalOfConcat(parse, base[i := sent], segment[j := received], day);
    DayTotalOfConcat(parse, base, segment, day);
    DayTotalOfUpdate(parse, base, i, sent, day);
    DayTotalOfUpdate(parse, segment, j, received, day);
    MovedShare(parse, base[i], sent, -x, day);
    MovedShare(parse, segment[j], received, x, day);
  }

  /** A sweep changes no day's transfers exactly when both rows cover the same day, or none. */
  lemma SweepBooksNothingIff(parse: Parser, base: seq<CashRow>, i: nat, sent: CashRow, segment: seq<CashRow>, j: nat, received: CashRow, x: real)
    requires Sweeps(parse, base, i, sent, segment, j, received, x) && x != 0.0
    ensures (forall day :: DayTotal(parse, base[i := sent] + segment[j := received], day) == DayTotal(parse, base + segment, day))
      <==> CoveredDay(base[i]) == CoveredDay(segment[j])
  {
    forall day {
      SweptTotal(parse, base, i, sent, segment, j, received, x, day);
    }
    if CoveredDay(base[i]) != CoveredDay(segment[j]) {
      var day := if CoveredDay(base[i]).Some? then CoveredDay(base[i]).value else CoveredDay(segment[j]).value;
      SweptTotal(parse, base, i, sent, segment, j, received, x, day);
      assert DayTotal(parse, base[i := sent] + segment[j := received], day) != DayTotal(parse, base + segment, day);
    }
  }
}
