/** Folding one account's per-day Flex statements into one. */
module FlexMerge {
  import opened FlexDays
  import opened FlexStatement
  import opened Sorting
  import opened Wrappers

  /** A row of a section: the same name and every attribute, in order. */
  datatype Key = Key(section: SectionName, row: Row)

  /** A section whose rows are events: each day carries its own, and repeats are the same row. */
  predicate Ordinary(name: SectionName) {
    name != EquitySummaryInBase && name != OpenPositions
  }

  /** The row as it is merged: an undated Cash Report row takes on the day it was reported for. */
  function Stamped(d: Dated, name: SectionName, r: Row): Row {
    if name == CashReport && AttrOf(r.attrs, "fromDate") == "" && AttrOf(r.attrs, "toDate") == "" then
      r.(attrs := r.attrs + [Attr("fromDate", d.first), Attr("toDate", d.last)])
    else r
  }

  function StampedAll(d: Dated, name: SectionName, rows: seq<Row>): (s: seq<Row>)
    ensures |s| == |rows|
  {
    if rows == [] then [] else StampedAll(d, name, rows[..|rows| - 1]) + [Stamped(d, name, rows[|rows| - 1])]
  }

  // ---------------------------------------------------------------- the fold, day by day

  /** One section while a day's rows are added: `dayKeys` are the rows this day brought. */
  datatype Part = Part(rows: seq<Row>, seen: set<Key>, dayKeys: set<Key>)

  function AddRow(p: Part, name: SectionName, r: Row): Part {
    var k := Key(name, r);
    if k in p.seen && k !in p.dayKeys then p else Part(p.rows + [r], p.seen + {k}, p.dayKeys + {k})
  }

  function AddRows(p: Part, d: Dated, name: SectionName, rows: seq<Row>): Part {
    if rows == [] then p
    else AddRow(AddRows(p, d, name, rows[..|rows| - 1]), name, Stamped(d, name, rows[|rows| - 1]))
  }

  function AddNav(nav: map<string, Row>, rows: seq<Row>): map<string, Row> {
    if rows == [] then nav
    else AddNav(nav, rows[..|rows| - 1])[ReportDate(rows[|rows| - 1]) := rows[|rows| - 1]]
  }

  datatype Merge = Merge(order: seq<SectionName>, sections: map<SectionName, Section>, nav: map<string, Row>, seen: set<Key>)

  const EMPTY := Merge([], map[], map[], {})

  function Opened(m: Merge, sec: Section): Merge {
    if sec.name in m.sections then m
    else m.(order := m.order + [sec.name], sections := m.sections[sec.name := Section(sec.name, sec.attrs, [])])
  }

  function AddSection(m: Merge, dayKeys: set<Key>, d: Dated, sec: Section): (Merge, set<Key>) {
    var o := Opened(m, sec);
    var out := o.sections[sec.name];
    if sec.name == EquitySummaryInBase then (o.(nav := AddNav(o.nav, sec.rows)), dayKeys)
    else if sec.name == OpenPositions then (o.(sections := o.sections[sec.name := out.(rows := sec.rows)]), dayKeys)
    else
      var p := AddRows(Part(out.rows, o.seen, dayKeys), d, sec.name, sec.rows);
      (o.(sections := o.sections[sec.name := out.(rows := p.rows)], seen := p.seen), p.dayKeys)
  }

  /** The first k sections of a day. */
  function AddSections(m: Merge, d: Dated, k: nat): (Merge, set<Key>)
    requires k <= |d.stmt.sections|
  {
    if k == 0 then (m, {})
    else
      var (before, dayKeys) := AddSections(m, d, k - 1);
      AddSection(before, dayKeys, d, d.stmt.sections[k - 1])
  }

  function AddDay(m: Merge, d: Dated): Merge {
    AddSections(m, d, |d.stmt.sections|).0
  }

  function AddDays(days: seq<Dated>): Merge {
    if days == [] then EMPTY else AddDay(AddDays(days[..|days| - 1]), days[|days| - 1])
  }

  /** The merge as the code keeps it, changed in place day by day. */
  class Merger {
    var order: seq<SectionName>
    var sections: map<SectionName, Section>
    var nav: map<string, Row>
    var seen: set<Key>

    ghost function View(): Merge
      reads this
    {
      Merge(order, sections, nav, seen)
    }

    constructor ()
      ensures View() == EMPTY
    {
      order, sections, nav, seen := [], map[], map[], {};
    }

    method AddRowsTo(d: Dated, name: SectionName, rows: seq<Row>, dayKeys: set<Key>) returns (dayKeys': set<Key>)
      requires name in sections
      modifies this`sections, this`seen
      ensures var p := AddRows(Part(old(sections)[name].rows, old(seen), dayKeys), d, name, rows);
        && sections == old(sections)[name := old(sections)[name].(rows := p.rows)]
        && seen == p.seen && dayKeys' == p.dayKeys
    {
      var out, section := sections[name].rows, sections[name];
      dayKeys' := dayKeys;
      for i := 0 to |rows|
        invariant Part(out, seen, dayKeys') == AddRows(Part(section.rows, old(seen), dayKeys), d, name, rows[..i])
        invariant sections == old(sections)
      {
        assert rows[..i + 1][..i] == rows[..i];
        var r := Stamped(d, name, rows[i]);
        var k := Key(name, r);
        if k in seen && k !in dayKeys' {
          continue;
        }
        seen, dayKeys' := seen + {k}, dayKeys' + {k};
        out := out + [r];
      }
      assert rows[..|rows|] == rows;
      sections := sections[name := section.(rows := out)];
    }

    method AddNavRows(rows: seq<Row>)
      modifies this`nav
      ensures nav == AddNav(old(nav), rows)
    {
      for i := 0 to |rows|
        invariant nav == AddNav(old(nav), rows[..i])
      {
        assert rows[..i + 1][..i] == rows[..i];
        nav := nav[ReportDate(rows[i]) := rows[i]];
      }
      assert rows[..|rows|] == rows;
    }

    method AddStatement(d: Dated)
      modifies this
      ensures View() == AddDay(old(View()), d)
    {
      var dayKeys: set<Key> := {};
      for k := 0 to |d.stmt.sections|
        invariant (View(), dayKeys) == AddSections(old(View()), d, k)
      {
        var sec := d.stmt.sections[k];
        if sec.name !in sections {
          sections := sections[sec.name := Section(sec.name, sec.attrs, [])];
          order := order + [sec.name];
        }
        if sec.name == EquitySummaryInBase {
          AddNavRows(sec.rows);
        } else if sec.name == OpenPositions {
          sections := sections[sec.name := sections[sec.name].(rows := sec.rows)];
        } else {
          dayKeys := AddRowsTo(d, sec.name, sec.rows, dayKeys);
        }
      }
    }
  }

  // ---------------------------------------------------------------- what the fold keeps

  /** The rows a day carries in a section, as the merge reads them, over its first k sections. */
  function DayRows(d: Dated, k: nat, name: SectionName): seq<Row>
    requires k <= |d.stmt.sections|
  {
    if k == 0 then []
    else
      var sec := d.stmt.sections[k - 1];
      DayRows(d, k - 1, name) + if sec.name == name then StampedAll(d, name, sec.rows) else []
  }

  function RowsOfDay(d: Dated, name: SectionName): seq<Row> {
    DayRows(d, |d.stmt.sections|, name)
  }

  function RowsOf(m: Merge, name: SectionName): seq<Row> {
    if name in m.sections then m.sections[name].rows else []
  }

  function CountIn(rows: seq<Row>, r: Row): nat {
    multiset(rows)[r]
  }

  /** One section's rows on one day, against what earlier days brought: a row of an earlier day is dropped,
      any other is kept as often as it stands. */
  lemma {:induction false} PartCounts(p: Part, d: Dated, name: SectionName, rows: seq<Row>, earlier: set<Key>, r: Row)
    requires p.seen == earlier + p.dayKeys && earlier !! p.dayKeys
    ensures var q := AddRows(p, d, name, rows);
      && q.seen == earlier + q.dayKeys && earlier !! q.dayKeys
      && CountIn(q.rows, r) == CountIn(p.rows, r) + (if Key(name, r) in earlier then 0 else CountIn(StampedAll(d, name, rows), r))
  {
    if rows != [] {
      PartCounts(p, d, name, rows[..|rows| - 1], earlier, r);
    }
  }

  lemma {:induction false} PartSees(p: Part, d: Dated, name: SectionName, rows: seq<Row>, k: Key)
    ensures k in AddRows(p, d, name, rows).seen <==> k in p.seen || (k.section == name && k.row in StampedAll(d, name, rows))
  {
    if rows != [] {
      PartSees(p, d, name, rows[..|rows| - 1], k);
    }
  }

  /** What a day has been seen to bring after its first k sections. */
  lemma {:induction false} DaySees(m: Merge, d: Dated, k: nat, key: Key)
    requires k <= |d.stmt.sections|
    ensures key in AddSections(m, d, k).0.seen <==>
      key in m.seen || (Ordinary(key.section) && key.row in DayRows(d, k, key.section))
  {
    if k > 0 {
      DaySees(m, d, k - 1, key);
      var (before, dayKeys) := AddSections(m, d, k - 1);
      var sec := d.stmt.sections[k - 1];
      var o := Opened(before, sec);
      PartSees(Part(o.sections[sec.name].rows, o.seen, dayKeys), d, sec.name, sec.rows, key);
    }
  }

  /** One section of a day. */
  lemma SectionCounts(m: Merge, dayKeys: set<Key>, d: Dated, sec: Section, earlier: set<Key>, name: SectionName, r: Row)
    requires m.seen == earlier + dayKeys && earlier !! dayKeys && Ordinary(name)
    ensures var (m', dayKeys') := AddSection(m, dayKeys, d, sec);
      && m'.seen == earlier + dayKeys' && earlier !! dayKeys'
      && CountIn(RowsOf(m', name), r) == CountIn(RowsOf(m, name), r)
           + (if sec.name != name || Key(name, r) in earlier then 0 else CountIn(StampedAll(d, name, sec.rows), r))
  {
    if Ordinary(sec.name) {
      var o := Opened(m, sec);
      PartCounts(Part(o.sections[sec.name].rows, o.seen, dayKeys), d, sec.name, sec.rows, earlier, r);
    }
  }

  /** One day: every ordinary row not seen on an earlier day is added as often as the day carries it. */
  lemma {:induction false} DayCounts(m: Merge, d: Dated, k: nat, name: SectionName, r: Row)
    requires k <= |d.stmt.sections| && Ordinary(name)
    ensures var (m', dayKeys) := AddSections(m, d, k);
      && m'.seen == m.seen + dayKeys && m.seen !! dayKeys
      && CountIn(RowsOf(m', name), r)
           == CountIn(RowsOf(m, name), r) + (if Key(name, r) in m.seen then 0 else CountIn(DayRows(d, k, name), r))
  {
    if k > 0 {
      DayCounts(m, d, k - 1, name, r);
      var (before, dayKeys) := AddSections(m, d, k - 1);
      SectionCounts(before, dayKeys, d, d.stmt.sections[k - 1], m.seen, name, r);
    }
  }

  /** How often the earliest of the days that carry a row carries it. */
  function FirstDayCount(days: seq<Dated>, name: SectionName, r: Row): nat {
    if days == [] then 0
    else
      var before := FirstDayCount(days[..|days| - 1], name, r);
      if before > 0 then before else CountIn(RowsOfDay(days[|days| - 1], name), r)
  }

  /** In every section other than NAV and Open Positions, the merged statement has each row exactly as often
      as the earliest day that carries it. */
  lemma {:induction false} MergeKeepsFirstDayCounts(days: seq<Dated>, name: SectionName, r: Row)
    requires Ordinary(name)
    ensures CountIn(RowsOf(AddDays(days), name), r) == FirstDayCount(days, name, r)
    ensures Key(name, r) in AddDays(days).seen <==> FirstDayCount(days, name, r) > 0
  {
    if days != [] {
      var n := |days| - 1;
      MergeKeepsFirstDayCounts(days[..n], name, r);
      DayCounts(AddDays(days[..n]), days[n], |days[n].stmt.sections|, name, r);
      DaySees(AddDays(days[..n]), days[n], |days[n].stmt.sections|, Key(name, r));
    }
  }

  /** The count again, by the day that settles it. */
  lemma FirstDayCountIsTheEarliest(days: seq<Dated>, name: SectionName, r: Row, i: nat)
    requires i < |days| && Carries(days[i], name, r)
    requires forall j :: 0 <= j < i ==> !Carries(days[j], name, r)
    ensures FirstDayCount(days, name, r) == CountIn(RowsOfDay(days[i], name), r)
  {
    var counts := DayCountsOf(days, name, r);
    forall j | 0 <= j < |days|
      ensures counts[j] > 0 <==> Carries(days[j], name, r)
    {
      CountIsPositiveIff(RowsOfDay(days[j], name), r);
    }
    FirstPositiveAt(counts, i);
    FirstDayCountIsFirstPositive(days, name, r);
  }

  predicate Carries(d: Dated, name: SectionName, r: Row) {
    r in RowsOfDay(d, name)
  }

  lemma CountIsPositiveIff(rows: seq<Row>, r: Row)
    ensures CountIn(rows, r) > 0 <==> r in rows
  {
  }

  /** How often each day has the row. */
  function DayCountsOf(days: seq<Dated>, name: SectionName, r: Row): (counts: seq<nat>)
    ensures |counts| == |days| && forall i :: 0 <= i < |days| ==> counts[i] == CountIn(RowsOfDay(days[i], name), r)
  {
    if days == [] then []
    else DayCountsOf(days[..|days| - 1], name, r) + [CountIn(RowsOfDay(days[|days| - 1], name), r)]
  }

  function FirstPositive(counts: seq<nat>): nat {
    if counts == [] then 0
    else
      var before := FirstPositive(counts[..|counts| - 1]);
      if before > 0 then before else counts[|counts| - 1]
  }

  lemma {:induction false} FirstPositiveAt(counts: seq<nat>, i: nat)
    requires i < |counts| && counts[i] > 0 && forall j :: 0 <= j < i ==> counts[j] == 0
    ensures FirstPositive(counts) == counts[i]
  {
    var n := |counts| - 1;
    if i < n {
      FirstPositiveAt(counts[..n], i);
    } else {
      NonePositive(counts[..n]);
    }
  }

  lemma {:induction false} NonePositive(counts: seq<nat>)
    requires forall j :: 0 <= j < |counts| ==> counts[j] == 0
    ensures FirstPositive(counts) == 0
  {
    if counts != [] {
      NonePositive(counts[..|counts| - 1]);
    }
  }

  lemma {:induction false} FirstDayCountIsFirstPositive(days: seq<Dated>, name: SectionName, r: Row)
    ensures FirstDayCount(days, name, r) == FirstPositive(DayCountsOf(days, name, r))
  {
    if days != [] {
      var n := |days| - 1;
      FirstDayCountIsFirstPositive(days[..n], name, r);
      assert DayCountsOf(days, name, r)[..n] == DayCountsOf(days[..n], name, r);
    }
  }

  // ---------------------------------------------------------------- NAV and open positions

  /** The last row dated so. */
  function LastDated(rows: seq<Row>, date: string): Option<Row> {
    if rows == [] then None
    else if ReportDate(rows[|rows| - 1]) == date then Some(rows[|rows| - 1])
    else LastDated(rows[..|rows| - 1], date)
  }

  function Found(nav: map<string, Row>, date: string): Option<Row> {
    if date in nav then Some(nav[date]) else None
  }

  function Or(a: Option<Row>, b: Option<Row>): Option<Row> {
    if a.Some? then a else b
  }

  lemma {:induction false} NavFinds(nav: map<string, Row>, rows: seq<Row>, date: string)
    ensures Found(AddNav(nav, rows), date) == Or(LastDated(rows, date), Found(nav, date))
  {
    if rows != [] {
      NavFinds(nav, rows[..|rows| - 1], date);
    }
  }

  lemma {:induction false} LastDatedOfConcat(a: seq<Row>, b: seq<Row>, date: string)
    ensures LastDated(a + b, date) == Or(LastDated(b, date), LastDated(a, date))
  {
    if b == [] {
      assert a + b == a;
    } else {
      assert (a + b)[..|a + b| - 1] == a + b[..|b| - 1];
      LastDatedOfConcat(a, b[..|b| - 1], date);
    }
  }

  lemma {:induction false} OnlyCashReportsAreStamped(d: Dated, name: SectionName, rows: seq<Row>)
    requires name != CashReport
    ensures StampedAll(d, name, rows) == rows
  {
    if rows != [] {
      OnlyCashReportsAreStamped(d, name, rows[..|rows| - 1]);
    }
  }

  /** What one section does to the NAV rows and to the book. */
  lemma SectionEffects(m: Merge, dayKeys: set<Key>, d: Dated, sec: Section)
    ensures var m' := AddSection(m, dayKeys, d, sec).0;
      && m'.nav == (if sec.name == EquitySummaryInBase then AddNav(m.nav, sec.rows) else m.nav)
      && RowsOf(m', OpenPositions) == (if sec.name == OpenPositions then sec.rows else RowsOf(m, OpenPositions))
      && RowsOf(m', EquitySummaryInBase) == RowsOf(m, EquitySummaryInBase)
  {
  }

  function NavPart(d: Dated, sec: Section): seq<Row> {
    if sec.name == EquitySummaryInBase then StampedAll(d, EquitySummaryInBase, sec.rows) else []
  }

  lemma SectionFinds(m: Merge, dayKeys: set<Key>, d: Dated, sec: Section, date: string)
    ensures Found(AddSection(m, dayKeys, d, sec).0.nav, date) == Or(LastDated(NavPart(d, sec), date), Found(m.nav, date))
  {
    SectionEffects(m, dayKeys, d, sec);
    if sec.name == EquitySummaryInBase {
      NavFinds(m.nav, sec.rows, date);
      OnlyCashReportsAreStamped(d, EquitySummaryInBase, sec.rows);
    }
  }

  lemma {:induction false} DayFinds(m: Merge, d: Dated, k: nat, date: string)
    requires k <= |d.stmt.sections|
    ensures Found(AddSections(m, d, k).0.nav, date) == Or(LastDated(DayRows(d, k, EquitySummaryInBase), date), Found(m.nav, date))
  {
    if k > 0 {
      DayFinds(m, d, k - 1, date);
      var (before, dayKeys) := AddSections(m, d, k - 1);
      var sec := d.stmt.sections[k - 1];
      assert AddSections(m, d, k) == AddSection(before, dayKeys, d, sec);
      assert DayRows(d, k, EquitySummaryInBase) == DayRows(d, k - 1, EquitySummaryInBase) + NavPart(d, sec);
      SectionFinds(before, dayKeys, d, sec, date);
      LastDatedOfConcat(DayRows(d, k - 1, EquitySummaryInBase), NavPart(d, sec), date);
    }
  }

  /** The NAV row of a report date: the last one of the latest statement that carries the date. */
  function LatestNav(days: seq<Dated>, date: string): Option<Row> {
    if days == [] then None
    else Or(LastDated(RowsOfDay(days[|days| - 1], EquitySummaryInBase), date), LatestNav(days[..|days| - 1], date))
  }

  lemma {:induction false} NavIsLatest(days: seq<Dated>, date: string)
    ensures Found(AddDays(days).nav, date) == LatestNav(days, date)
    ensures date in AddDays(days).nav ==> ReportDate(AddDays(days).nav[date]) == date
  {
    if days != [] {
      var n := |days| - 1;
      NavIsLatest(days[..n], date);
      DayFinds(AddDays(days[..n]), days[n], |days[n].stmt.sections|, date);
      LastDatedIsDated(RowsOfDay(days[n], EquitySummaryInBase), date);
    }
  }

  lemma {:induction false} LastDatedIsDated(rows: seq<Row>, date: string)
    ensures LastDated(rows, date).Some? ==> ReportDate(LastDated(rows, date).value) == date
  {
    if rows != [] {
      LastDatedIsDated(rows[..|rows| - 1], date);
    }
  }

  /** The book of the last section of that name among a day's first k sections. */
  function DayBook(d: Dated, k: nat): Option<seq<Row>>
    requires k <= |d.stmt.sections|
  {
    if k == 0 then None
    else if d.stmt.sections[k - 1].name == OpenPositions then Some(d.stmt.sections[k - 1].rows)
    else DayBook(d, k - 1)
  }

  function LatestBook(days: seq<Dated>): seq<Row> {
    if days == [] then []
    else
      var d := days[|days| - 1];
      var book := DayBook(d, |d.stmt.sections|);
      if book.Some? then book.value else LatestBook(days[..|days| - 1])
  }

  lemma {:induction false} DayOpens(m: Merge, d: Dated, k: nat)
    requires k <= |d.stmt.sections|
    ensures RowsOf(AddSections(m, d, k).0, OpenPositions) == (if DayBook(d, k).Some? then DayBook(d, k).value else RowsOf(m, OpenPositions))
    ensures RowsOf(AddSections(m, d, k).0, EquitySummaryInBase) == RowsOf(m, EquitySummaryInBase)
  {
    if k > 0 {
      DayOpens(m, d, k - 1);
      var (before, dayKeys) := AddSections(m, d, k - 1);
      SectionEffects(before, dayKeys, d, d.stmt.sections[k - 1]);
    }
  }

  /** Open Positions are the last book alone, and NAV rows are kept apart until they are settled. */
  lemma {:induction false} BookIsLatest(days: seq<Dated>)
    ensures RowsOf(AddDays(days), OpenPositions) == LatestBook(days)
    ensures RowsOf(AddDays(days), EquitySummaryInBase) == []
  {
    if days != [] {
      var n := |days| - 1;
      BookIsLatest(days[..n]);
      DayOpens(AddDays(days[..n]), days[n], |days[n].stmt.sections|);
    }
  }

  ghost predicate DatesOf(dates: seq<string>, nav: map<string, Row>) {
    Increasing(dates) && forall date :: date in dates <==> date in nav
  }

  /** One row per report date, oldest first. */
  ghost predicate Settled(rows: seq<Row>, nav: map<string, Row>) {
    exists dates :: SettledBy(rows, nav, dates)
  }

  ghost predicate SettledBy(rows: seq<Row>, nav: map<string, Row>, dates: seq<string>) {
    DatesOf(dates, nav) && |rows| == |dates| && forall i :: 0 <= i < |dates| ==> rows[i] == nav[dates[i]]
  }

  /** The one settled listing of the NAV rows. */
  method SettleNav(nav: map<string, Row>) returns (rows: seq<Row>)
    ensures Settled(rows, nav)
  {
    var dates := SortedStrings(nav.Keys);
    rows := RowsFor(dates, nav);
  }

  method RowsFor(dates: seq<string>, nav: map<string, Row>) returns (rows: seq<Row>)
    requires DatesOf(dates, nav)
    ensures Settled(rows, nav)
  {
    rows := [];
    for i := 0 to |dates|
      invariant |rows| == i && forall j :: 0 <= j < i ==> rows[j] == nav[dates[j]]
    {
      rows := rows + [nav[dates[i]]];
    }
    assert SettledBy(rows, nav, dates);
  }

  /** There is one way to settle the NAV rows. */
  lemma SettledIsUnique(a: seq<Row>, b: seq<Row>, nav: map<string, Row>)
    requires Settled(a, nav) && Settled(b, nav)
    ensures a == b
  {
    var da :| SettledBy(a, nav, da);
    var db :| SettledBy(b, nav, db);
    assert da == db by {
      IncreasingIsUnique(da, db);
    }
    forall i | 0 <= i < |a|
      ensures a[i] == b[i]
    {
      assert a[i] == nav[da[i]];
    }
  }

  // ---------------------------------------------------------------- the merged statement

  function WithFromDate(attrs: seq<Attr>, value: string): seq<Attr> {
    if attrs == [] then []
    else
      var a := attrs[|attrs| - 1];
      WithFromDate(attrs[..|attrs| - 1], value) + [if a.name == "fromDate" then a.(value := value) else a]
  }

  /** A section as it is written out: its rows as merged, the NAV rows settled. */
  ghost predicate WrittenSection(out: Section, name: SectionName, m: Merge) {
    && name in m.sections && out.name == m.sections[name].name && out.attrs == m.sections[name].attrs
    && (if name == EquitySummaryInBase then Settled(out.rows, m.nav) else out.rows == m.sections[name].rows)
  }

  ghost predicate WrittenStatement(out: Statement, days: seq<Dated>)
    requires days != []
  {
    var m := AddDays(days);
    && out.attrs == WithFromDate(days[|days| - 1].stmt.attrs, AttrOf(days[0].stmt.attrs, "fromDate"))
    && |out.sections| == |m.order| && forall i :: 0 <= i < |m.order| ==> WrittenSection(out.sections[i], m.order[i], m)
  }

  /** The order lists every open section, once. */
  ghost predicate OrderIsOpen(m: Merge) {
    && (forall i :: 0 <= i < |m.order| ==> m.order[i] in m.sections)
    && (forall name :: name in m.sections ==> name in m.order && m.sections[name].name == name)
    && (forall i, j :: 0 <= i < j < |m.order| ==> m.order[i] != m.order[j])
  }

  lemma SectionStaysOpen(m: Merge, dayKeys: set<Key>, d: Dated, sec: Section)
    requires OrderIsOpen(m)
    ensures OrderIsOpen(AddSection(m, dayKeys, d, sec).0)
  {
    OpeningKeepsOrder(m, sec);
    SectionChangesRowsOnly(m, dayKeys, d, sec);
    SameSectionsOpen(Opened(m, sec), AddSection(m, dayKeys, d, sec).0);
  }

  lemma SectionChangesRowsOnly(m: Merge, dayKeys: set<Key>, d: Dated, sec: Section)
    ensures SameSections(Opened(m, sec), AddSection(m, dayKeys, d, sec).0)
  {
  }

  ghost predicate SameSections(a: Merge, b: Merge) {
    && a.order == b.order && a.sections.Keys == b.sections.Keys
    && forall name :: name in a.sections ==> a.sections[name].name == b.sections[name].name
  }

  lemma SameSectionsOpen(a: Merge, b: Merge)
    requires OrderIsOpen(a) && SameSections(a, b)
    ensures OrderIsOpen(b)
  {
  }

  lemma OpeningKeepsOrder(m: Merge, sec: Section)
    requires OrderIsOpen(m)
    ensures OrderIsOpen(Opened(m, sec))
  {
  }

  lemma {:induction false} SectionsStayOpen(m: Merge, d: Dated, k: nat)
    requires k <= |d.stmt.sections| && OrderIsOpen(m)
    ensures OrderIsOpen(AddSections(m, d, k).0)
  {
    if k > 0 {
      SectionsStayOpen(m, d, k - 1);
      var (before, dayKeys) := AddSections(m, d, k - 1);
      SectionStaysOpen(before, dayKeys, d, d.stmt.sections[k - 1]);
    }
  }

  lemma {:induction false} DaysStayOpen(days: seq<Dated>)
    ensures OrderIsOpen(AddDays(days))
  {
    if days != [] {
      DaysStayOpen(days[..|days| - 1]);
      SectionsStayOpen(AddDays(days[..|days| - 1]), days[|days| - 1], |days[|days| - 1].stmt.sections|);
    }
  }

  method FoldDays(days: seq<Dated>) returns (m: Merge)
    ensures m == AddDays(days)
  {
    var merger := new Merger();
    for i := 0 to |days|
      invariant merger.View() == AddDays(days[..i])
    {
      assert days[..i + 1][..i] == days[..i];
      merger.AddStatement(days[i]);
    }
    assert days[..|days|] == days;
    m := Merge(merger.order, merger.sections, merger.nav, merger.seen);
  }

  method WriteSections(m: Merge) returns (sections: seq<Section>)
    requires OrderIsOpen(m)
    ensures |sections| == |m.order| && forall i :: 0 <= i < |m.order| ==> WrittenSection(sections[i], m.order[i], m)
  {
    var navRows := SettleNav(m.nav);
    sections := [];
    for i := 0 to |m.order|
      invariant |sections| == i && forall j :: 0 <= j < i ==> WrittenSection(sections[j], m.order[j], m)
    {
      var out := m.sections[m.order[i]];
      if m.order[i] == EquitySummaryInBase {
        out := out.(rows := navRows);
      }
      assert WrittenSection(out, m.order[i], m);
      sections := sections + [out];
    }
  }

  /** The statement written from the days of a split, or the refusal of those days. */
  method MergeDailyStatements(blocks: seq<Statement>) returns (r: Result<Statement, MergeError>)
    requires blocks != []
    ensures r.Failure? ==> Days(blocks).Failure? && r.error == Days(blocks).error
    ensures r.Success? ==> Days(blocks).Success? && Days(blocks).value != [] && WrittenStatement(r.value, Days(blocks).value)
  {
    var ordered := ConsecutiveDays(blocks);
    if ordered.Failure? {
      return Failure(ordered.error);
    }
    var days := ordered.value;
    DaysAreNotEmpty(blocks);
    DaysStayOpen(days);
    var m := FoldDays(days);
    var sections := WriteSections(m);
    r := Success(Statement(WithFromDate(days[|days| - 1].stmt.attrs, AttrOf(days[0].stmt.attrs, "fromDate")), sections));
  }

  lemma DaysAreNotEmpty(blocks: seq<Statement>)
    requires blocks != [] && Days(blocks).Success?
    ensures Days(blocks).value != []
  {
    DaysSucceedIffDisjoint(blocks);
    assert |Periods(blocks).value| > 0;
    assert |multiset(Days(blocks).value)| == |multiset(Periods(blocks).value)|;
  }

  /** The statement written does not depend on the order the per-day statements arrived in. */
  lemma MergeIsOrderFree(a: seq<Statement>, b: seq<Statement>, outA: Statement, outB: Statement)
    requires multiset(a) == multiset(b)
    requires Days(a).Success? && Days(a).value != [] && WrittenStatement(outA, Days(a).value)
    requires Days(b).Success? && Days(b).value != [] && WrittenStatement(outB, Days(b).value)
    ensures outA == outB
  {
    DaysAreOrderFree(a, b);
    var m := AddDays(Days(a).value);
    forall i | 0 <= i < |m.order|
      ensures outA.sections[i] == outB.sections[i]
    {
      var sa, sb := outA.sections[i], outB.sections[i];
      assert WrittenSection(sa, m.order[i], m) && WrittenSection(sb, m.order[i], m);
      if m.order[i] == EquitySummaryInBase {
        SettledIsUnique(sa.rows, sb.rows, m.nav);
      }
    }
  }

  function SectionRows(out: Statement, name: SectionName, k: nat): seq<Row>
    requires k <= |out.sections|
  {
    if k == 0 then []
    else SectionRows(out, name, k - 1) + if out.sections[k - 1].name == name then out.sections[k - 1].rows else []
  }

  lemma {:induction false} AbsentSection(out: Statement, name: SectionName, k: nat)
    requires k <= |out.sections| && forall i :: 0 <= i < k ==> out.sections[i].name != name
    ensures SectionRows(out, name, k) == []
  {
    if k > 0 {
      AbsentSection(out, name, k - 1);
    }
  }

  /** The rows written under a name are those of the one section of that name. */
  lemma {:induction false} OnlySection(out: Statement, i: nat, k: nat)
    requires i < k <= |out.sections|
    requires forall j :: 0 <= j < k && j != i ==> out.sections[j].name != out.sections[i].name
    ensures SectionRows(out, out.sections[i].name, k) == out.sections[i].rows
  {
    if i == k - 1 {
      AbsentSection(out, out.sections[i].name, k - 1);
    } else {
      OnlySection(out, i, k - 1);
    }
  }

  lemma WrittenRows(out: Statement, days: seq<Dated>, name: SectionName)
    requires days != [] && WrittenStatement(out, days)
    ensures var m, rows := AddDays(days), SectionRows(out, name, |out.sections|);
      && (name != EquitySummaryInBase ==> rows == RowsOf(m, name))
      && (name == EquitySummaryInBase ==> if name in m.sections then Settled(rows, m.nav) else rows == [])
  {
    DaysStayOpen(days);
    var m := AddDays(days);
    forall i | 0 <= i < |m.order|
      ensures out.sections[i].name == m.order[i]
    {
      assert WrittenSection(out.sections[i], m.order[i], m);
    }
    if name in m.sections {
      var i :| 0 <= i < |m.order| && m.order[i] == name;
      OnlySection(out, i, |out.sections|);
      assert WrittenSection(out.sections[i], m.order[i], m);
    } else {
      AbsentSection(out, name, |out.sections|);
    }
  }

  /** The merged statement against the days it came from: every ordinary row as often as on the earliest day
      that carries it, and the open positions of the last book. */
  lemma MergedStatementCounts(out: Statement, days: seq<Dated>, name: SectionName, r: Row)
    requires days != [] && WrittenStatement(out, days)
    ensures Ordinary(name) ==> CountIn(SectionRows(out, name, |out.sections|), r) == FirstDayCount(days, name, r)
    ensures SectionRows(out, OpenPositions, |out.sections|) == LatestBook(days)
  {
    WrittenRows(out, days, name);
    WrittenRows(out, days, OpenPositions);
    BookIsLatest(days);
    if Ordinary(name) {
      MergeKeepsFirstDayCounts(days, name, r);
    }
  }

  lemma {:induction false} NavNeedsItsSection(days: seq<Dated>)
    ensures AddDays(days).nav != map[] ==> EquitySummaryInBase in AddDays(days).sections
  {
    if days != [] {
      var n := |days| - 1;
      NavNeedsItsSection(days[..n]);
      DayNavNeedsItsSection(AddDays(days[..n]), days[n], |days[n].stmt.sections|);
    }
  }

  lemma {:induction false} DayNavNeedsItsSection(m: Merge, d: Dated, k: nat)
    requires k <= |d.stmt.sections| && (m.nav != map[] ==> EquitySummaryInBase in m.sections)
    ensures var m' := AddSections(m, d, k).0; m'.nav != map[] ==> EquitySummaryInBase in m'.sections
  {
    if k > 0 {
      DayNavNeedsItsSection(m, d, k - 1);
    }
  }

  /** What settling leaves, when the rows are keyed by their own report date. */
  lemma SettledFacts(rows: seq<Row>, nav: map<string, Row>)
    requires Settled(rows, nav) && forall date :: date in nav ==> ReportDate(nav[date]) == date
    ensures forall i, j :: 0 <= i < j < |rows| ==> StringLt(ReportDate(rows[i]), ReportDate(rows[j]))
    ensures forall date :: date in nav ==> nav[date] in rows
    ensures forall r :: r in rows ==> Found(nav, ReportDate(r)) == Some(r)
  {
    var dates :| SettledBy(rows, nav, dates);
    forall i | 0 <= i < |rows|
      ensures ReportDate(rows[i]) == dates[i] && Found(nav, dates[i]) == Some(rows[i])
    {
      SettledAt(rows, nav, dates, i);
    }
    forall date | date in nav
      ensures nav[date] in rows
    {
      var i :| 0 <= i < |dates| && dates[i] == date;
      SettledAt(rows, nav, dates, i);
    }
  }

  lemma SettledAt(rows: seq<Row>, nav: map<string, Row>, dates: seq<string>, i: nat)
    requires SettledBy(rows, nav, dates) && i < |dates|
    ensures dates[i] in nav && rows[i] == nav[dates[i]]
  {
    assert dates[i] in dates;
  }

  /** The merged NAV: one row per report date, strictly increasing, each from the latest statement that
      carries the date, and no date missing. */
  lemma MergedNavIsLatest(out: Statement, days: seq<Dated>, date: string)
    requires days != [] && WrittenStatement(out, days)
    ensures var rows := SectionRows(out, EquitySummaryInBase, |out.sections|);
      && (forall i, j :: 0 <= i < j < |rows| ==> StringLt(ReportDate(rows[i]), ReportDate(rows[j])))
      && (LatestNav(days, date).Some? ==> LatestNav(days, date).value in rows)
      && (forall r :: r in rows && ReportDate(r) == date ==> LatestNav(days, date) == Some(r))
  {
    var m, rows := AddDays(days), SectionRows(out, EquitySummaryInBase, |out.sections|);
    WrittenRows(out, days, EquitySummaryInBase);
    NavNeedsItsSection(days);
    NavIsLatest(days, date);
    if EquitySummaryInBase in m.sections {
      forall other | other in m.nav
        ensures ReportDate(m.nav[other]) == other
      {
        NavIsLatest(days, other);
      }
      SettledFacts(rows, m.nav);
    }
  }

  // ---------------------------------------------------------------- against the rows as reported

  /** The rows a day reports in a section, over its first k sections, as they stand in the statement. */
  ghost function Reported(d: Dated, k: nat, name: SectionName): seq<Row>
    requires k <= |d.stmt.sections|
  {
    if k == 0 then []
    else Reported(d, k - 1, name) + if d.stmt.sections[k - 1].name == name then d.stmt.sections[k - 1].rows else []
  }

  ghost function ReportedBy(d: Dated, name: SectionName): seq<Row> {
    Reported(d, |d.stmt.sections|, name)
  }

  /** Outside the Cash Report the merge reads a day's rows as they stand. */
  lemma {:induction false} OthersAreAsReported(d: Dated, k: nat, name: SectionName)
    requires k <= |d.stmt.sections| && name != CashReport
    ensures DayRows(d, k, name) == Reported(d, k, name)
  {
    if k > 0 {
      OthersAreAsReported(d, k - 1, name);
      OnlyCashReportsAreStamped(d, name, d.stmt.sections[k - 1].rows);
    }
  }

  /** A row that says nothing of the days it covers. */
  ghost predicate Undated(r: Row) {
    !Names(r.attrs, "fromDate") && !Names(r.attrs, "toDate")
  }

  /** The row with the dates of a day written behind its attributes. */
  ghost function DatedBy(d: Dated, r: Row): Row {
    r.(attrs := r.attrs + [Attr("fromDate", d.first), Attr("toDate", d.last)])
  }

  /** Such a row reads as covering that day, and otherwise as before. */
  lemma DatedByReads(d: Dated, r: Row, name: string)
    requires Undated(r)
    ensures AttrOf(DatedBy(d, r).attrs, "fromDate") == d.first && AttrOf(DatedBy(d, r).attrs, "toDate") == d.last
    ensures name != "fromDate" && name != "toDate" ==> AttrOf(DatedBy(d, r).attrs, name) == AttrOf(r.attrs, name)
  {
    var from, until := Attr("fromDate", d.first), Attr("toDate", d.last);
    assert |"fromDate"| != |"toDate"|;
    AttrOfConcat(r.attrs, [from, until], "fromDate");
    AttrOfConcat(r.attrs, [from, until], "toDate");
    AttrOfConcat(r.attrs, [from, until], name);
    AttrOfIsTheFirst(r.attrs, name);
    TwoAttrs(from, until, "fromDate");
    TwoAttrs(from, until, "toDate");
    TwoAttrs(from, until, name);
  }

  lemma TwoAttrs(a: Attr, b: Attr, name: string)
    ensures AttrOf([a, b], name) == if a.name == name then a.value else if b.name == name then b.value else ""
  {
    assert [a, b][1..] == [b] && [b][1..] == [];
    assert AttrOf([b], name) == if b.name == name then b.value else "";
  }

  lemma UndatedIsStamped(d: Dated, r: Row)
    requires Undated(r)
    ensures Stamped(d, CashReport, r) == DatedBy(d, r)
  {
    AttrOfIsTheFirst(r.attrs, "fromDate");
    AttrOfIsTheFirst(r.attrs, "toDate");
  }

  /** Only the row itself, or one that reads so already, is merged as the dated row. */
  lemma StampedOnlyFrom(d: Dated, r: Row, x: Row)
    requires Undated(r) && d.first != ""
    ensures Stamped(d, CashReport, x) == DatedBy(d, r) <==> x == r || x == DatedBy(d, r)
  {
    UndatedIsStamped(d, r);
    DatedByReads(d, r, "fromDate");
    var tail := [Attr("fromDate", d.first), Attr("toDate", d.last)];
    if x != DatedBy(d, r) && Stamped(d, CashReport, x) == DatedBy(d, r) {
      assert x.attrs + tail == r.attrs + tail;
      assert |x.attrs| == |r.attrs|;
      assert x.attrs == (x.attrs + tail)[..|x.attrs|] == r.attrs;
    }
  }

  lemma {:induction false} StampedAllCount(d: Dated, rows: seq<Row>, r: Row)
    requires Undated(r) && d.first != ""
    ensures CountIn(StampedAll(d, CashReport, rows), DatedBy(d, r)) == CountIn(rows, r) + CountIn(rows, DatedBy(d, r))
  {
    if rows != [] {
      var before, x := rows[..|rows| - 1], rows[|rows| - 1];
      StampedAllCount(d, before, r);
      StampedOnlyFrom(d, r, x);
      DatedIsLonger(d, r);
      assert rows == before + [x];
      CountOneMore(before, x, r);
      CountOneMore(before, x, DatedBy(d, r));
      CountOneMore(StampedAll(d, CashReport, before), Stamped(d, CashReport, x), DatedBy(d, r));
    }
  }

  lemma DatedIsLonger(d: Dated, r: Row)
    ensures DatedBy(d, r) != r
  {
    assert |DatedBy(d, r).attrs| == |r.attrs| + 2;
  }

  lemma CountOneMore(rows: seq<Row>, x: Row, r: Row)
    ensures CountIn(rows + [x], r) == CountIn(rows, r) + if x == r then 1 else 0
  {
  }

  lemma CountConcat(a: seq<Row>, b: seq<Row>, r: Row)
    ensures CountIn(a + b, r) == CountIn(a, r) + CountIn(b, r)
  {
  }

  /** What one more section adds to a day. */
  lemma DayRowsStep(d: Dated, k: nat)
    requires 0 < k <= |d.stmt.sections|
    ensures var sec := d.stmt.sections[k - 1];
      var rows := if sec.name == CashReport then sec.rows else [];
      && DayRows(d, k, CashReport) == DayRows(d, k - 1, CashReport) + StampedAll(d, CashReport, rows)
      && Reported(d, k, CashReport) == Reported(d, k - 1, CashReport) + rows
  {
  }

  /** A day's undated row is merged as the dated one, as often as the day reports it. */
  lemma {:induction false} DayRowsCount(d: Dated, k: nat, r: Row)
    requires k <= |d.stmt.sections| && Undated(r) && d.first != ""
    ensures CountIn(DayRows(d, k, CashReport), DatedBy(d, r)) == CountIn(Reported(d, k, CashReport), r) + CountIn(Reported(d, k, CashReport), DatedBy(d, r))
  {
    if k > 0 {
      DayRowsCount(d, k - 1, r);
      DayRowsStep(d, k);
      var sec := d.stmt.sections[k - 1];
      OneMorePart(d, DayRows(d, k - 1, CashReport), Reported(d, k - 1, CashReport), if sec.name == CashReport then sec.rows else [], r);
    }
  }

  lemma OneMorePart(d: Dated, merged: seq<Row>, reported: seq<Row>, rows: seq<Row>, r: Row)
    requires Undated(r) && d.first != ""
    requires CountIn(merged, DatedBy(d, r)) == CountIn(reported, r) + CountIn(reported, DatedBy(d, r))
    ensures CountIn(merged + StampedAll(d, CashReport, rows), DatedBy(d, r)) == CountIn(reported + rows, r) + CountIn(reported + rows, DatedBy(d, r))
  {
    StampedAllCount(d, rows, r);
    CountConcat(merged, StampedAll(d, CashReport, rows), DatedBy(d, r));
    CountConcat(reported, rows, r);
    CountConcat(reported, rows, DatedBy(d, r));
  }

  /** Only the day itself dates an undated row with its own period; another day has the dated row only where it
      reports it so. */
  lemma {:induction false} OtherDaysDoNotDate(d: Dated, other: Dated, k: nat, r: Row)
    requires k <= |other.stmt.sections| && Undated(r) && other.first != d.first && DatedBy(d, r) in DayRows(other, k, CashReport)
    ensures DatedBy(d, r) in Reported(other, k, CashReport)
  {
    var sec := other.stmt.sections[k - 1];
    if DatedBy(d, r) in DayRows(other, k - 1, CashReport) {
      OtherDaysDoNotDate(d, other, k - 1, r);
    } else {
      StampedElsewhere(d, other, sec.rows, r);
    }
  }

  lemma {:induction false} StampedElsewhere(d: Dated, other: Dated, rows: seq<Row>, r: Row)
    requires Undated(r) && other.first != d.first && DatedBy(d, r) in StampedAll(other, CashReport, rows)
    ensures DatedBy(d, r) in rows
  {
    var n := |rows| - 1;
    if DatedBy(d, r) in StampedAll(other, CashReport, rows[..n]) {
      StampedElsewhere(d, other, rows[..n], r);
    } else {
      DatesTellTheDay(d, r, other, rows[n]);
    }
  }

  lemma DatesTellTheDay(d: Dated, r: Row, other: Dated, x: Row)
    requires other.first != d.first
    ensures DatedBy(other, x) != DatedBy(d, r)
  {
    if |x.attrs| == |r.attrs| {
      assert DatedBy(other, x).attrs[|r.attrs|] == Attr("fromDate", other.first);
      assert DatedBy(d, r).attrs[|r.attrs|] == Attr("fromDate", d.first);
    } else {
      assert |DatedBy(other, x).attrs| != |DatedBy(d, r).attrs|;
    }
  }

  /** In the statement written from a split, every Cash Report row of every day that names no dates stands with
      that day's dates; when no earlier day already reports it so dated, as often as its day reports it, counting
      what the day reports so dated itself. */
  lemma UndatedCashRowsAreDated(blocks: seq<Statement>, out: Statement, i: nat, r: Row)
    requires Days(blocks).Success? && i < |Days(blocks).value| && WrittenStatement(out, Days(blocks).value)
    requires r in ReportedBy(Days(blocks).value[i], CashReport) && Undated(r)
    ensures var days, rows := Days(blocks).value, SectionRows(out, CashReport, |out.sections|);
      var dated := DatedBy(days[i], r);
      && dated in rows
      && ((forall j :: 0 <= j < i ==> dated !in ReportedBy(days[j], CashReport)) ==>
            CountIn(rows, dated) == CountIn(ReportedBy(days[i], CashReport), r) + CountIn(ReportedBy(days[i], CashReport), dated))
  {
    var days := Days(blocks).value;
    var d, dated := days[i], DatedBy(days[i], r);
    DaysAreTheirOwn(blocks, d);
    DayRowsCount(d, |d.stmt.sections|, r);
    CountIsPositiveIff(ReportedBy(d, CashReport), r);
    CountIsPositiveIff(RowsOfDay(d, CashReport), dated);
    var e := EarliestCarrier(days, CashReport, dated, i);
    FirstDayCountIsTheEarliest(days, CashReport, dated, e);
    MergedStatementCounts(out, days, CashReport, dated);
    CountIsPositiveIff(RowsOfDay(days[e], CashReport), dated);
    CountIsPositiveIff(SectionRows(out, CashReport, |out.sections|), dated);
    if e < i {
      FirstsDiffer(blocks, e, i);
      OtherDaysDoNotDate(d, days[e], |days[e].stmt.sections|, r);
    }
  }

  lemma EarliestCarrier(days: seq<Dated>, name: SectionName, r: Row, i: nat) returns (e: nat)
    requires i < |days| && Carries(days[i], name, r)
    ensures e <= i && Carries(days[e], name, r) && forall j :: 0 <= j < e ==> !Carries(days[j], name, r)
  {
    e := 0;
    while !Carries(days[e], name, r)
      invariant e <= i && forall j :: 0 <= j < e ==> !Carries(days[j], name, r)
      decreases i - e
    {
      e := e + 1;
    }
  }

  lemma FirstsDiffer(blocks: seq<Statement>, e: nat, i: nat)
    requires Days(blocks).Success? && e < i < |Days(blocks).value|
    ensures Days(blocks).value[e].first != Days(blocks).value[i].first
  {
    var days := Days(blocks).value;
    DaysSucceedIffDisjoint(blocks);
    DaysAreTheirOwn(blocks, days[e]);
    assert Before(days[e], days[i]);
    LtLeTrans(days[e].first, days[e].last, days[i].first);
  }

  /** Two days that report the same undated row both keep it, each under its own dates. */
  lemma EqualUndatedRowsAreBothKept(blocks: seq<Statement>, out: Statement, i: nat, j: nat, r: Row)
    requires Days(blocks).Success? && i < j < |Days(blocks).value| && WrittenStatement(out, Days(blocks).value) && Undated(r)
    requires r in ReportedBy(Days(blocks).value[i], CashReport) && r in ReportedBy(Days(blocks).value[j], CashReport)
    ensures var days, rows := Days(blocks).value, SectionRows(out, CashReport, |out.sections|);
      DatedBy(days[i], r) in rows && DatedBy(days[j], r) in rows && DatedBy(days[i], r) != DatedBy(days[j], r)
  {
    var days := Days(blocks).value;
    UndatedCashRowsAreDated(blocks, out, i, r);
    UndatedCashRowsAreDated(blocks, out, j, r);
    FirstsDiffer(blocks, i, j);
    DatedByReads(days[i], r, "fromDate");
    DatedByReads(days[j], r, "fromDate");
  }

  lemma {:induction false} DatedStandsInDay(d: Dated, k: nat, r: Row)
    requires k <= |d.stmt.sections| && r in Reported(d, k, CashReport) && (AttrOf(r.attrs, "fromDate") != "" || AttrOf(r.attrs, "toDate") != "")
    ensures r in DayRows(d, k, CashReport)
  {
    if r in Reported(d, k - 1, CashReport) {
      DatedStandsInDay(d, k - 1, r);
    } else {
      StampingKeepsDated(d, d.stmt.sections[k - 1].rows, r);
    }
  }

  lemma {:induction false} StampingKeepsDated(d: Dated, rows: seq<Row>, r: Row)
    requires r in rows && (AttrOf(r.attrs, "fromDate") != "" || AttrOf(r.attrs, "toDate") != "")
    ensures r in StampedAll(d, CashReport, rows)
  {
    if r in rows[..|rows| - 1] {
      StampingKeepsDated(d, rows[..|rows| - 1], r);
    }
  }

  /** A Cash Report row that reads a date of its own stands as it is. */
  lemma DatedCashRowsStand(out: Statement, days: seq<Dated>, i: nat, r: Row)
    requires days != [] && WrittenStatement(out, days) && i < |days| && r in ReportedBy(days[i], CashReport)
    requires AttrOf(r.attrs, "fromDate") != "" || AttrOf(r.attrs, "toDate") != ""
    ensures r in SectionRows(out, CashReport, |out.sections|)
  {
    DatedStandsInDay(days[i], |days[i].stmt.sections|, r);
    var e := EarliestCarrier(days, CashReport, r, i);
    FirstDayCountIsTheEarliest(days, CashReport, r, e);
    MergedStatementCounts(out, days, CashReport, r);
    CountIsPositiveIff(RowsOfDay(days[e], CashReport), r);
    CountIsPositiveIff(SectionRows(out, CashReport, |out.sections|), r);
  }

  // ---------------------------------------------------------------- the statement's own attributes and sections

  lemma {:induction false} WithFromDateReads(attrs: seq<Attr>, value: string, name: string)
    ensures Names(WithFromDate(attrs, value), name) <==> Names(attrs, name)
    ensures AttrOf(WithFromDate(attrs, value), name) == if name == "fromDate" && Names(attrs, name) then value else AttrOf(attrs, name)
  {
    if attrs != [] {
      var before, a := attrs[..|attrs| - 1], attrs[|attrs| - 1];
      var a' := if a.name == "fromDate" then a.(value := value) else a;
      WithFromDateReads(before, value, name);
      assert attrs == before + [a];
      AttrOfConcat(before, [a], name);
      AttrOfConcat(WithFromDate(before, value), [a'], name);
      NamedLast(before, a, name);
      NamedLast(WithFromDate(before, value), a', name);
      assert [a][1..] == [] && [a'][1..] == [];
    }
  }

  lemma NamedLast(attrs: seq<Attr>, a: Attr, name: string)
    ensures Names(attrs + [a], name) <==> Names(attrs, name) || a.name == name
  {
    var all := attrs + [a];
    if Names(attrs, name) {
      var i :| 0 <= i < |attrs| && attrs[i].name == name;
      assert all[i].name == name;
    }
    assert all[|attrs|] == a;
  }

  /** The merged statement covers the split: it begins with the first day and ends with the last, and is otherwise
      described as the last day is. */
  lemma MergedPeriod(blocks: seq<Statement>, out: Statement, name: string)
    requires Days(blocks).Success? && Days(blocks).value != [] && WrittenStatement(out, Days(blocks).value)
    ensures var days := Days(blocks).value;
      && FlexDay(AttrOf(out.attrs, "fromDate")) == Some(days[0].first)
      && FlexDay(AttrOf(out.attrs, "toDate")) == Some(days[|days| - 1].last)
      && (name != "fromDate" ==> AttrOf(out.attrs, name) == AttrOf(days[|days| - 1].stmt.attrs, name))
  {
    var days := Days(blocks).value;
    var last, value := days[|days| - 1], AttrOf(days[0].stmt.attrs, "fromDate");
    DaysAreTheirOwn(blocks, days[0]);
    DaysAreTheirOwn(blocks, last);
    AttrOfIsTheFirst(last.stmt.attrs, "fromDate");
    assert AttrOf(last.stmt.attrs, "fromDate") != "";
    assert |"fromDate"| != |"toDate"|;
    WithFromDateReads(last.stmt.attrs, value, "fromDate");
    WithFromDateReads(last.stmt.attrs, value, "toDate");
    WithFromDateReads(last.stmt.attrs, value, name);
  }

  /** The first section of a name, over the days and over a day's first k sections. */
  function FirstOfDay(d: Dated, k: nat, name: SectionName): Option<Section>
    requires k <= |d.stmt.sections|
  {
    if k == 0 then None
    else
      var before, sec := FirstOfDay(d, k - 1, name), d.stmt.sections[k - 1];
      if before.Some? then before else if sec.name == name then Some(sec) else None
  }

  function FirstOfDays(days: seq<Dated>, name: SectionName): Option<Section> {
    if days == [] then None
    else
      var before, d := FirstOfDays(days[..|days| - 1], name), days[|days| - 1];
      if before.Some? then before else FirstOfDay(d, |d.stmt.sections|, name)
  }

  /** A section is open as soon as one of its name has come, with the first one's attributes. */
  ghost predicate OpenAs(m: Merge, name: SectionName, first: Option<Section>) {
    (name in m.sections <==> first.Some?) && (first.Some? ==> m.sections[name].attrs == first.value.attrs)
  }

  lemma SectionOpens(m: Merge, dayKeys: set<Key>, d: Dated, sec: Section, name: SectionName, first: Option<Section>)
    requires OpenAs(m, name, first)
    ensures OpenAs(AddSection(m, dayKeys, d, sec).0, name, if first.Some? then first else if sec.name == name then Some(sec) else None)
  {
  }

  lemma {:induction false} DayOpensSections(m: Merge, d: Dated, k: nat, name: SectionName, first: Option<Section>)
    requires k <= |d.stmt.sections| && OpenAs(m, name, first)
    ensures OpenAs(AddSections(m, d, k).0, name, if first.Some? then first else FirstOfDay(d, k, name))
  {
    if k > 0 {
      DayOpensSections(m, d, k - 1, name, first);
      var (before, dayKeys) := AddSections(m, d, k - 1);
      SectionOpens(before, dayKeys, d, d.stmt.sections[k - 1], name, if first.Some? then first else FirstOfDay(d, k - 1, name));
    }
  }

  lemma {:induction false} DaysOpenSections(days: seq<Dated>, name: SectionName)
    ensures OpenAs(AddDays(days), name, FirstOfDays(days, name))
  {
    if days != [] {
      var n := |days| - 1;
      DaysOpenSections(days[..n], name);
      DayOpensSections(AddDays(days[..n]), days[n], |days[n].stmt.sections|, name, FirstOfDays(days[..n], name));
    }
  }

  /** The merged statement has a section of a name exactly when a day has one, never two, and with the attributes of
      the first that came. */
  lemma MergedSections(out: Statement, days: seq<Dated>, name: SectionName)
    requires days != [] && WrittenStatement(out, days)
    ensures (exists i :: 0 <= i < |out.sections| && out.sections[i].name == name) <==> FirstOfDays(days, name).Some?
    ensures forall i :: 0 <= i < |out.sections| && out.sections[i].name == name ==>
      FirstOfDays(days, name).Some? && out.sections[i].attrs == FirstOfDays(days, name).value.attrs
    ensures forall i, j :: 0 <= i < j < |out.sections| ==> out.sections[i].name != out.sections[j].name
  {
    var m := AddDays(days);
    DaysStayOpen(days);
    DaysOpenSections(days, name);
    forall i | 0 <= i < |m.order|
      ensures out.sections[i].name == m.order[i] && m.order[i] in m.sections && out.sections[i].attrs == m.sections[m.order[i]].attrs
    {
      assert WrittenSection(out.sections[i], m.order[i], m);
    }
    if name in m.sections {
      var i :| 0 <= i < |m.order| && m.order[i] == name;
      assert out.sections[i].name == name;
    }
  }
}
