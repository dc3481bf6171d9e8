/** Consolidating an account with its segment: NAV summed date by date, each side carried forward. */
module SegmentNav {
  import opened Decimals
  import opened FlexStatement
  import opened Sorting
  import opened Wrappers

  /** strconv.ParseFloat and FormatFloat. */
  datatype Numbers = Numbers(parse: string -> Option<real>, format: real -> string)

  /** Without rounding: what is read is a decimal, and every decimal is written so that it reads back. */
  ghost predicate Exact(num: Numbers) {
    && (forall s :: num.parse(s).Some? ==> IsDecimal(num.parse(s).value))
    && (forall x :: IsDecimal(x) ==> num.format(x) != "" && num.parse(num.format(x)) == Some(x))
  }

  const TEXT_ATTRS: set<string> := {"reportDate", "currency", "accountId", "acctAlias", "model"}

  datatype ConsolidateError = CurrenciesDiffer(date: string)

  // ---------------------------------------------------------------- carrying a side forward

  predicate DatedNoLater(a: Row, b: Row) {
    StringLe(ReportDate(a), ReportDate(b))
  }

  /** A dated row up to the date, no older than the best so far. */
  predicate Replaces(best: Option<Row>, r: Row, date: string) {
    ReportDate(r) != "" && StringLe(ReportDate(r), date) && (best.None? || DatedNoLater(best.value, r))
  }

  /** A side's last known row on a date: the newest dated on or before it, the last listed on a tie. */
  function LatestUpTo(rows: seq<Row>, date: string): Option<Row> {
    if rows == [] then None
    else
      var best, r := LatestUpTo(rows[..|rows| - 1], date), rows[|rows| - 1];
      if Replaces(best, r, date) then Some(r) else best
  }

  function DatedRows(rows: seq<Row>): seq<Row> {
    if rows == [] then []
    else DatedRows(rows[..|rows| - 1]) + if ReportDate(rows[|rows| - 1]) != "" then [rows[|rows| - 1]] else []
  }

  lemma {:induction false} LatestOfAppend(rows: seq<Row>, r: Row, date: string)
    ensures LatestUpTo(rows + [r], date) ==
      if Replaces(LatestUpTo(rows, date), r, date) then Some(r) else LatestUpTo(rows, date)
  {
    assert (rows + [r])[..|rows|] == rows;
  }

  lemma {:induction false} UndatedRowsDoNotCount(rows: seq<Row>, date: string)
    ensures LatestUpTo(DatedRows(rows), date) == LatestUpTo(rows, date)
  {
    if rows != [] {
      var n := |rows| - 1;
      UndatedRowsDoNotCount(rows[..n], date);
      if ReportDate(rows[n]) != "" {
        LatestOfAppend(DatedRows(rows[..n]), rows[n], date);
      } else {
        assert DatedRows(rows) == DatedRows(rows[..n]);
      }
    }
  }

  lemma DateOrder()
    ensures TotalPreorder(DatedNoLater)
  {
    forall a, b
      ensures DatedNoLater(a, b) || DatedNoLater(b, a)
    {
      StringLeTotal(ReportDate(a), ReportDate(b));
    }
    forall a, b, c | DatedNoLater(a, b) && DatedNoLater(b, c)
      ensures DatedNoLater(a, c)
    {
      StringLeTransitive(ReportDate(a), ReportDate(b), ReportDate(c));
    }
  }

  /** The latest row is a row of the side, dated, and no later than the date. */
  lemma {:induction false} LatestIsARow(rows: seq<Row>, date: string)
    ensures var best := LatestUpTo(rows, date);
      best.Some? ==> best.value in rows && ReportDate(best.value) != "" && StringLe(ReportDate(best.value), date)
  {
    if rows != [] {
      LatestIsARow(rows[..|rows| - 1], date);
    }
  }

  /** A row that is dated and not after a date. */
  ghost predicate Known(r: Row, date: string) {
    ReportDate(r) != "" && StringLe(ReportDate(r), date)
  }

  /** What a side carries to a date is the newest row known by then, the last listed of several; nothing only when
      none is known. */
  lemma {:induction false} LatestIsNewest(rows: seq<Row>, date: string) returns (at: nat)
    ensures LatestUpTo(rows, date).None? ==> forall i :: 0 <= i < |rows| ==> !Known(rows[i], date)
    ensures LatestUpTo(rows, date).Some? ==> at < |rows| && LatestUpTo(rows, date).value == rows[at] && Known(rows[at], date)
    ensures LatestUpTo(rows, date).Some? ==> forall i :: 0 <= i < |rows| && Known(rows[i], date) ==>
      if i <= at then StringLe(ReportDate(rows[i]), ReportDate(rows[at])) else StringLt(ReportDate(rows[i]), ReportDate(rows[at]))
  {
    at := 0;
    if rows != [] {
      var n := |rows| - 1;
      at := LatestIsNewest(rows[..n], date);
      var best := LatestUpTo(rows[..n], date);
      if Replaces(best, rows[n], date) {
        forall i | 0 <= i < n && Known(rows[i], date)
          ensures StringLe(ReportDate(rows[i]), ReportDate(rows[n]))
        {
          assert Known(rows[..n][i], date);
          StringLeTotal(ReportDate(rows[i]), ReportDate(rows[..n][at]));
          StringLeTransitive(ReportDate(rows[i]), ReportDate(rows[..n][at]), ReportDate(rows[n]));
        }
        at := n;
        StringLeTotal(ReportDate(rows[n]), ReportDate(rows[n]));
      } else {
        forall i | 0 <= i < n && Known(rows[i], date)
          ensures Known(rows[..n][i], date)
        {
        }
        if best.Some? {
          StringLeTotal(ReportDate(best.value), ReportDate(rows[n]));
        }
      }
    }
  }

  /** Rows older than the last one do not unseat it, whichever side of it they come. */
  lemma {:induction false} LatestOfInsert(s: seq<Row>, x: Row, date: string)
    ensures LatestUpTo(InsertBy(s, DatedNoLater, x), date) ==
      if Replaces(LatestUpTo(s, date), x, date) then Some(x) else LatestUpTo(s, date)
  {
    if s == [] {
      LatestOfAppend([], x, date);
      assert [] + [x] == [x];
    } else {
      var n := |s| - 1;
      var last, front := s[n], s[..n];
      assert s == front + [last];
      LatestOfAppend(front, last, date);
      if DatedNoLater(last, x) {
        LatestOfAppend(s, x, date);
      } else {
        LatestOfInsert(front, x, date);
        LatestOfAppend(InsertBy(front, DatedNoLater, x), last, date);
        OlderInsertCommutes(LatestUpTo(front, date), x, last, date);
      }
    }
  }

  /** Choosing between an older row and a newer one does not depend on which is met first. */
  lemma OlderInsertCommutes(best: Option<Row>, older: Row, newer: Row, date: string)
    requires !DatedNoLater(newer, older)
    ensures var withOlder := if Replaces(best, older, date) then Some(older) else best;
      var withNewer := if Replaces(best, newer, date) then Some(newer) else best;
      (if Replaces(withOlder, newer, date) then Some(newer) else withOlder)
        == (if Replaces(withNewer, older, date) then Some(older) else withNewer)
  {
    StringLeTotal(ReportDate(older), ReportDate(newer));
    if best.Some? {
      var b := ReportDate(best.value);
      StringLeTotal(b, ReportDate(newer));
      StringLeTotal(b, ReportDate(older));
      if StringLe(b, ReportDate(older)) {
        StringLeTransitive(b, ReportDate(older), ReportDate(newer));
      }
      if StringLe(ReportDate(newer), b) && StringLe(b, ReportDate(older)) {
        StringLeTransitive(ReportDate(newer), b, ReportDate(older));
      }
    }
    if StringLe(ReportDate(newer), date) {
      StringLeTransitive(ReportDate(older), ReportDate(newer), date);
    }
  }

  /** Sorting a side by date, stably, does not change what it is worth on any date. */
  lemma {:induction false} LatestOfSorted(rows: seq<Row>, date: string)
    ensures LatestUpTo(SortBy(rows, DatedNoLater), date) == LatestUpTo(rows, date)
  {
    if rows != [] {
      var n := |rows| - 1;
      LatestOfSorted(rows[..n], date);
      LatestOfInsert(SortBy(rows[..n], DatedNoLater), rows[n], date);
    }
  }

  /** On a sorted side the latest row stands just before the first later one. */
  lemma {:induction false} LatestAtPointer(side: seq<Row>, next: nat, date: string, k: nat)
    requires next <= k <= |side| && SortedBy(side, DatedNoLater)
    requires forall i :: 0 <= i < |side| ==> ReportDate(side[i]) != ""
    requires forall i :: 0 <= i < next ==> StringLe(ReportDate(side[i]), date)
    requires forall i :: next <= i < |side| ==> !StringLe(ReportDate(side[i]), date)
    ensures LatestUpTo(side[..k], date) == if next == 0 then None else Some(side[next - 1])
    decreases k
  {
    if k > 0 {
      assert side[..k][..k - 1] == side[..k - 1];
      if k > next {
        LatestAtPointer(side, next, date, k - 1);
      } else {
        LatestOfPrefix(side, next - 1, date);
      }
    }
  }

  lemma {:induction false} LatestOfPrefix(side: seq<Row>, k: nat, date: string)
    requires k < |side| && SortedBy(side, DatedNoLater)
    requires forall i :: 0 <= i <= k ==> ReportDate(side[i]) != "" && StringLe(ReportDate(side[i]), date)
    ensures LatestUpTo(side[..k + 1], date) == Some(side[k])
  {
    assert side[..k + 1][..k] == side[..k];
    if k > 0 {
      LatestOfPrefix(side, k - 1, date);
      assert DatedNoLater(side[k - 1], side[k]);
    }
  }

  // ---------------------------------------------------------------- adding one date's rows

  /** One date's attributes as they are added: first values in order, sums, and the names that are text. */
  datatype Acc = Acc(names: seq<string>, first: map<string, string>, sums: map<string, real>, text: set<string>)

  const NOTHING := Acc([], map[], map[], {})

  function SumOf(acc: Acc, name: string): real {
    if name in acc.sums then acc.sums[name] else 0.0
  }

  function Named(acc: Acc, a: Attr): Acc {
    if a.name in acc.first then acc
    else Acc(acc.names + [a.name], acc.first[a.name := a.value], acc.sums, if a.name in TEXT_ATTRS then acc.text + {a.name} else acc.text)
  }

  predicate Clashes(acc: Acc, a: Attr) {
    a.name == "currency" && a.value != "" && a.name in acc.first && acc.first[a.name] != "" && a.value != acc.first[a.name]
  }

  function Counted(num: Numbers, acc: Acc, a: Attr): Acc {
    if a.name in acc.text || a.value == "" then acc
    else
      match num.parse(a.value)
      case None => acc.(text := acc.text + {a.name})
      case Some(v) => acc.(sums := acc.sums[a.name := SumOf(acc, a.name) + v])
  }

  /** `None` when two currencies meet. */
  function AddAttrs(num: Numbers, attrs: seq<Attr>): Option<Acc> {
    if attrs == [] then Some(NOTHING)
    else
      var before, a := AddAttrs(num, attrs[..|attrs| - 1]), attrs[|attrs| - 1];
      if before.None? || Clashes(Named(before.value, a), a) then None else Some(Counted(num, Named(before.value, a), a))
  }

  function FlatAttrs(rows: seq<Row>): seq<Attr> {
    if rows == [] then [] else FlatAttrs(rows[..|rows| - 1]) + rows[|rows| - 1].attrs
  }

  function OutValue(num: Numbers, acc: Acc, date: string, name: string): string {
    if name == "reportDate" then date
    else if name !in acc.text then num.format(SumOf(acc, name))
    else if name in acc.first then acc.first[name] else ""
  }

  function OutAttrs(num: Numbers, acc: Acc, date: string, names: seq<string>): seq<Attr> {
    if names == [] then [] else [Attr(names[0], OutValue(num, acc, date, names[0]))] + OutAttrs(num, acc, date, names[1..])
  }

  /** The row of one date: amounts added, the first row's text kept. */
  function SumRow(num: Numbers, date: string, rows: seq<Row>): Result<Row, ConsolidateError>
    requires rows != []
  {
    var acc := AddAttrs(num, FlatAttrs(rows));
    if acc.None? then Failure(CurrenciesDiffer(date)) else Success(Row(rows[0].name, OutAttrs(num, acc.value, date, acc.value.names), ""))
  }

  /** The amounts under a name that can be read. */
  function Total(num: Numbers, attrs: seq<Attr>, name: string): real {
    if attrs == [] then 0.0
    else
      var a := attrs[|attrs| - 1];
      Total(num, attrs[..|attrs| - 1], name)
        + if a.name == name && a.value != "" && num.parse(a.value).Some? then num.parse(a.value).value else 0.0
  }

  /** Every value under a name is empty or an amount. */
  ghost predicate AllAmounts(num: Numbers, attrs: seq<Attr>, name: string) {
    forall a :: a in attrs && a.name == name && a.value != "" ==> num.parse(a.value).Some?
  }

  /** One attribute, for a name that is not text by nature. */
  lemma AmountIsCounted(num: Numbers, acc: Acc, a: Attr, name: string)
    requires name !in TEXT_ATTRS
    ensures var acc' := Counted(num, Named(acc, a), a);
      var mine := a.name == name && a.value != "";
      && (name in acc'.text <==> name in acc.text || (mine && num.parse(a.value).None?))
      && (name !in acc'.text ==> SumOf(acc', name) == SumOf(acc, name) + if mine then num.parse(a.value).value else 0.0)
  {
  }

  /** What the fold holds for a name that is not text by nature. */
  lemma {:induction false} AmountsAreSummed(num: Numbers, attrs: seq<Attr>, name: string)
    requires AddAttrs(num, attrs).Some? && name !in TEXT_ATTRS
    ensures var acc := AddAttrs(num, attrs).value;
      && (name in acc.text <==> !AllAmounts(num, attrs, name))
      && (name !in acc.text ==> SumOf(acc, name) == Total(num, attrs, name))
  {
    if attrs != [] {
      var n := |attrs| - 1;
      AmountsAreSummed(num, attrs[..n], name);
      AmountIsCounted(num, AddAttrs(num, attrs[..n]).value, attrs[n], name);
      assert attrs == attrs[..n] + [attrs[n]];
      assert AllAmounts(num, attrs, name) <==> AllAmounts(num, attrs[..n], name) && AllAmounts(num, [attrs[n]], name);
    }
  }

  lemma {:induction false} NamesAreListed(num: Numbers, attrs: seq<Attr>)
    requires AddAttrs(num, attrs).Some?
    ensures var acc := AddAttrs(num, attrs).value;
      && (forall name :: name in acc.names <==> name in acc.first)
      && (forall a :: a in attrs ==> a.name in acc.first)
  {
    if attrs != [] {
      var n := |attrs| - 1;
      NamesAreListed(num, attrs[..n]);
      var before := AddAttrs(num, attrs[..n]).value;
      NamingLists(before, attrs[n]);
      CountingKeepsNames(num, Named(before, attrs[n]), attrs[n]);
      forall a | a in attrs
        ensures a.name in AddAttrs(num, attrs).value.first
      {
        assert a in attrs[..n] || a == attrs[n];
      }
    }
  }

  lemma NamingLists(acc: Acc, a: Attr)
    requires forall name :: name in acc.names <==> name in acc.first
    ensures var acc' := Named(acc, a);
      && (forall name :: name in acc'.names <==> name in acc'.first)
      && a.name in acc'.first && acc.first.Keys <= acc'.first.Keys
  {
    assert forall name :: name in acc.names + [a.name] <==> name in acc.names || name == a.name;
  }

  lemma CountingKeepsNames(num: Numbers, acc: Acc, a: Attr)
    ensures Counted(num, acc, a).names == acc.names && Counted(num, acc, a).first == acc.first
  {
  }

  lemma {:induction false} OutValueIsFound(num: Numbers, acc: Acc, date: string, names: seq<string>, name: string)
    requires name in names
    ensures AttrOf(OutAttrs(num, acc, date, names), name) == OutValue(num, acc, date, name)
  {
    if names[0] != name {
      assert names == [names[0]] + names[1..];
      OutValueIsFound(num, acc, date, names[1..], name);
      assert OutAttrs(num, acc, date, names)[1..] == OutAttrs(num, acc, date, names[1..]);
    }
  }

  /** Sums of decimals are decimals, so they are written exactly. */
  lemma {:induction false} TotalIsDecimal(num: Numbers, attrs: seq<Attr>, name: string)
    requires Exact(num)
    ensures IsDecimal(Total(num, attrs, name))
  {
    if attrs == [] {
      ZeroIsDecimal();
    } else {
      var a := attrs[|attrs| - 1];
      TotalIsDecimal(num, attrs[..|attrs| - 1], name);
      if a.name == name && a.value != "" && num.parse(a.value).Some? {
        SumIsDecimal(Total(num, attrs[..|attrs| - 1], name), num.parse(a.value).value);
      }
    }
  }

  /** The row of one date, name by name: an amount is the sum of the amounts, what cannot be added is kept. */
  lemma SumRowAdds(num: Numbers, date: string, rows: seq<Row>, name: string)
    requires rows != [] && SumRow(num, date, rows).Success? && name !in TEXT_ATTRS && Exact(num)
    requires Names(FlatAttrs(rows), name)
    requires AllAmounts(num, FlatAttrs(rows), name)
    ensures num.parse(AttrOf(SumRow(num, date, rows).value.attrs, name)) == Some(Total(num, FlatAttrs(rows), name))
  {
    var attrs := FlatAttrs(rows);
    var acc := AddAttrs(num, attrs).value;
    AmountsAreSummed(num, attrs, name);
    TotalIsDecimal(num, attrs, name);
    NamesAreListed(num, attrs);
    OutValueIsFound(num, acc, date, acc.names, name);
    assert "reportDate" in TEXT_ATTRS;
  }

  // ---------------------------------------------------------------- what is not added

  lemma AttrOfAppend(attrs: seq<Attr>, a: Attr, name: string)
    ensures AttrOf(attrs + [a], name) == if Names(attrs, name) then AttrOf(attrs, name) else if a.name == name then a.value else ""
  {
    AttrOfConcat(attrs, [a], name);
    assert [a][1..] == [];
  }

  lemma NamedIfFound(attrs: seq<Attr>, name: string)
    requires AttrOf(attrs, name) != ""
    ensures Names(attrs, name)
  {
    AttrOfIsTheFirst(attrs, name);
  }

  /** The value kept for a name is the first one listed under it, and text by nature is known as text. */
  lemma {:induction false} FirstIsKept(num: Numbers, attrs: seq<Attr>, name: string)
    requires AddAttrs(num, attrs).Some?
    ensures var acc := AddAttrs(num, attrs).value;
      && (name in acc.first <==> Names(attrs, name))
      && (name in acc.first ==> acc.first[name] == AttrOf(attrs, name))
      && (name in acc.first && name in TEXT_ATTRS ==> name in acc.text)
  {
    if attrs != [] {
      var before, a := attrs[..|attrs| - 1], attrs[|attrs| - 1];
      FirstIsKept(num, before, name);
      AttrOfAppend(before, a, name);
      CountingKeepsNames(num, Named(AddAttrs(num, before).value, a), a);
      assert attrs == before + [a];
      NamesOneMore(before, a, name);
    }
  }

  lemma NamesOneMore(attrs: seq<Attr>, a: Attr, name: string)
    ensures Names(attrs + [a], name) <==> Names(attrs, name) || a.name == name
  {
    NamesConcat(attrs, [a], name);
    assert [a][0] == a;
  }

  predicate DescribesTheAccount(name: string) {
    name == "currency" || name == "accountId" || name == "acctAlias" || name == "model"
  }

  lemma DescriptionsAreText(name: string)
    ensures DescribesTheAccount(name) || name == "reportDate" <==> name in TEXT_ATTRS
  {
  }

  /** The row of one date carries that date; under the names that describe the account, and under any name with
      a value that is no amount, it carries what the first carried row that has the name says. */
  lemma SumRowKeepsText(num: Numbers, date: string, rows: seq<Row>, name: string)
    requires rows != [] && SumRow(num, date, rows).Success? && Names(FlatAttrs(rows), name)
    ensures var value := AttrOf(SumRow(num, date, rows).value.attrs, name);
      && (name == "reportDate" ==> value == date)
      && (DescribesTheAccount(name) || (name != "reportDate" && !AllAmounts(num, FlatAttrs(rows), name)) ==> value == AttrOf(FlatAttrs(rows), name))
  {
    var attrs := FlatAttrs(rows);
    var acc := AddAttrs(num, attrs).value;
    NamesAreListed(num, attrs);
    OutValueIsFound(num, acc, date, acc.names, name);
    FirstIsKept(num, attrs, name);
    DescriptionsAreText(name);
    if name !in TEXT_ATTRS {
      AmountsAreSummed(num, attrs, name);
    }
  }

  /** The row is named as the first one, and has each name of the carried rows once and no other. */
  lemma SumRowShape(num: Numbers, date: string, rows: seq<Row>, name: string)
    requires rows != [] && SumRow(num, date, rows).Success?
    ensures var row := SumRow(num, date, rows).value;
      row.name == rows[0].name && UniqueNames(row.attrs) && (Names(row.attrs, name) <==> Names(FlatAttrs(rows), name))
  {
    var attrs := FlatAttrs(rows);
    var acc := AddAttrs(num, attrs).value;
    NamesAreListed(num, attrs);
    NamesAreDistinct(num, attrs);
    FirstIsKept(num, attrs, name);
    OutNames(num, acc, date, acc.names);
    assert Names(OutAttrs(num, acc, date, acc.names), name) <==> name in acc.names;
  }

  lemma {:induction false} NamesAreDistinct(num: Numbers, attrs: seq<Attr>)
    requires AddAttrs(num, attrs).Some?
    ensures var names := AddAttrs(num, attrs).value.names; forall i, j :: 0 <= i < j < |names| ==> names[i] != names[j]
  {
    if attrs != [] {
      var before, a := attrs[..|attrs| - 1], attrs[|attrs| - 1];
      NamesAreDistinct(num, before);
      NamesAreListed(num, before);
      CountingKeepsNames(num, Named(AddAttrs(num, before).value, a), a);
    }
  }

  lemma {:induction false} OutNames(num: Numbers, acc: Acc, date: string, names: seq<string>)
    ensures var out := OutAttrs(num, acc, date, names); |out| == |names| && forall i :: 0 <= i < |names| ==> out[i].name == names[i]
  {
    if names != [] {
      OutNames(num, acc, date, names[1..]);
    }
  }

  method SumNavRows(num: Numbers, date: string, rows: seq<Row>) returns (r: Result<Row, ConsolidateError>)
    requires rows != []
    ensures r == SumRow(num, date, rows)
  {
    var acc := NOTHING;
    for i := 0 to |rows|
      invariant AddAttrs(num, FlatAttrs(rows[..i])) == Some(acc)
    {
      assert FlatAttrs(rows[..i]) + rows[i].attrs[..0] == FlatAttrs(rows[..i]);
      for j := 0 to |rows[i].attrs|
        invariant AddAttrs(num, FlatAttrs(rows[..i]) + rows[i].attrs[..j]) == Some(acc)
      {
        var a := rows[i].attrs[j];
        OneMoreAttr(num, FlatAttrs(rows[..i]), rows[i].attrs, j);
        acc := Named(acc, a);
        if Clashes(acc, a) {
          ClashRefuses(num, rows, i, j);
          return Failure(CurrenciesDiffer(date));
        }
        acc := Counted(num, acc, a);
      }
      assert rows[i].attrs[..|rows[i].attrs|] == rows[i].attrs;
      assert rows[..i + 1][..i] == rows[..i];
    }
    assert rows[..|rows|] == rows;
    r := Success(Row(rows[0].name, OutAttrs(num, acc, date, acc.names), ""));
  }

  lemma OneMoreAttr(num: Numbers, before: seq<Attr>, attrs: seq<Attr>, j: nat)
    requires j < |attrs|
    ensures AddAttrs(num, before + attrs[..j + 1]) ==
      var acc := AddAttrs(num, before + attrs[..j]);
      if acc.None? || Clashes(Named(acc.value, attrs[j]), attrs[j]) then None
      else Some(Counted(num, Named(acc.value, attrs[j]), attrs[j]))
  {
    var all := before + attrs[..j + 1];
    assert all[..|all| - 1] == before + attrs[..j];
  }

  lemma ClashRefuses(num: Numbers, rows: seq<Row>, i: nat, j: nat)
    requires i < |rows| && j < |rows[i].attrs|
    requires AddAttrs(num, FlatAttrs(rows[..i]) + rows[i].attrs[..j + 1]).None?
    ensures AddAttrs(num, FlatAttrs(rows)).None?
  {
    var here := FlatAttrs(rows[..i]) + rows[i].attrs[..j + 1];
    assert rows[..i + 1][..i] == rows[..i];
    assert FlatAttrs(rows[..i + 1]) == FlatAttrs(rows[..i]) + rows[i].attrs;
    assert here <= FlatAttrs(rows[..i + 1]);
    FlatPrefix(rows, i + 1, |rows|);
    assert rows[..|rows|] == rows;
    ClashIsFinal(num, here, FlatAttrs(rows));
  }

  lemma {:induction false} ClashIsFinal(num: Numbers, prefix: seq<Attr>, attrs: seq<Attr>)
    requires prefix <= attrs && AddAttrs(num, prefix).None?
    ensures AddAttrs(num, attrs).None?
  {
    if |prefix| < |attrs| {
      ClashIsFinal(num, prefix, attrs[..|attrs| - 1]);
    } else {
      assert prefix == attrs;
    }
  }

  lemma {:induction false} FlatPrefix(rows: seq<Row>, i: nat, k: nat)
    requires i <= k <= |rows|
    ensures FlatAttrs(rows[..i]) <= FlatAttrs(rows[..k])
  {
    if i < k {
      FlatPrefix(rows, i, k - 1);
      assert rows[..k][..k - 1] == rows[..k - 1];
    }
  }

  // ---------------------------------------------------------------- every date of the union

  /** The last known rows of the segments on a date, in segment order. */
  function CarriedRows(secs: seq<seq<Row>>, date: string): seq<Row> {
    if secs == [] then []
    else
      var r := LatestUpTo(secs[|secs| - 1], date);
      CarriedRows(secs[..|secs| - 1], date) + if r.Some? then [r.value] else []
  }

  ghost predicate Dates(rows: seq<Row>, date: string) {
    date != "" && exists r :: r in rows && ReportDate(r) == date
  }

  ghost predicate IsDate(secs: seq<seq<Row>>, date: string) {
    exists n :: 0 <= n < |secs| && Dates(secs[n], date)
  }

  method CollectDates(secs: seq<seq<Row>>) returns (dates: set<string>)
    ensures forall date :: date in dates <==> IsDate(secs, date)
  {
    dates := {};
    for n := 0 to |secs|
      invariant forall date :: date in dates <==> IsDate(secs[..n], date)
    {
      ghost var before := dates;
      for i := 0 to |secs[n]|
        invariant forall date :: date in dates <==> date in before || Dates(secs[n][..i], date)
      {
        assert secs[n][..i + 1] == secs[n][..i] + [secs[n][i]];
        if ReportDate(secs[n][i]) != "" {
          dates := dates + {ReportDate(secs[n][i])};
        }
      }
      assert secs[n][..|secs[n]|] == secs[n];
      OneMoreSection(secs, n);
    }
    assert secs[..|secs|] == secs;
  }

  lemma OneMoreSection(secs: seq<seq<Row>>, n: nat)
    requires n < |secs|
    ensures forall date :: IsDate(secs[..n + 1], date) <==> IsDate(secs[..n], date) || Dates(secs[n], date)
  {
    forall date | Dates(secs[n], date)
      ensures IsDate(secs[..n + 1], date)
    {
      assert secs[..n + 1][n] == secs[n];
    }
    forall date | IsDate(secs[..n], date)
      ensures IsDate(secs[..n + 1], date)
    {
      var m :| 0 <= m < n && Dates(secs[..n][m], date);
      assert secs[..n + 1][m] == secs[..n][m];
    }
  }

  lemma {:induction false} LatestExists(rows: seq<Row>, date: string, r: Row)
    requires r in rows && ReportDate(r) == date && date != ""
    ensures LatestUpTo(rows, date).Some?
  {
    var n := |rows| - 1;
    StringLeTotal(date, date);
    if r != rows[n] {
      assert rows == rows[..n] + [rows[n]];
      LatestExists(rows[..n], date, r);
    }
  }

  lemma {:induction false} DatesCarrySomething(secs: seq<seq<Row>>, date: string)
    requires IsDate(secs, date)
    ensures CarriedRows(secs, date) != []
  {
    var n := |secs| - 1;
    var m :| 0 <= m < |secs| && Dates(secs[m], date);
    if m == n {
      var r :| r in secs[n] && ReportDate(r) == date;
      LatestExists(secs[n], date, r);
    } else {
      assert secs[..n][m] == secs[m];
      DatesCarrySomething(secs[..n], date);
    }
  }

  /** A side as the walk reads it: its dated rows, in order of date. */
  function Side(rows: seq<Row>): seq<Row> {
    SortBy(DatedRows(rows), DatedNoLater)
  }

  lemma SideFacts(rows: seq<Row>, date: string)
    ensures SortedBy(Side(rows), DatedNoLater)
    ensures forall i :: 0 <= i < |Side(rows)| ==> ReportDate(Side(rows)[i]) != ""
    ensures LatestUpTo(Side(rows), date) == LatestUpTo(rows, date)
  {
    DateOrder();
    SortByIsSorted(DatedRows(rows), DatedNoLater);
    SortByIsPermutation(DatedRows(rows), DatedNoLater);
    LatestOfSorted(DatedRows(rows), date);
    UndatedRowsDoNotCount(rows, date);
    forall i | 0 <= i < |Side(rows)|
      ensures ReportDate(Side(rows)[i]) != ""
    {
      assert Side(rows)[i] in multiset(DatedRows(rows));
      DatedRowsAreDated(rows);
    }
  }

  lemma {:induction false} DatedRowsAreDated(rows: seq<Row>)
    ensures forall r :: r in DatedRows(rows) ==> ReportDate(r) != ""
  {
    if rows != [] {
      DatedRowsAreDated(rows[..|rows| - 1]);
    }
  }

  /** Moves a side's pointer past the rows dated up to the date. */
  method Advance(side: seq<Row>, next: nat, date: string) returns (next': nat)
    requires next <= |side|
    requires forall i :: 0 <= i < next ==> StringLe(ReportDate(side[i]), date)
    ensures next <= next' <= |side|
    ensures forall i :: 0 <= i < next' ==> StringLe(ReportDate(side[i]), date)
    ensures next' < |side| ==> !StringLe(ReportDate(side[next']), date)
  {
    next' := next;
    while next' < |side| && StringLe(ReportDate(side[next']), date)
      invariant next <= next' <= |side|
      invariant forall i :: 0 <= i < next' ==> StringLe(ReportDate(side[i]), date)
    {
      next' := next' + 1;
    }
  }

  /** A pointer stands no further than the date. */
  ghost predicate Fits(rows: seq<Row>, next: nat, date: string) {
    next <= |Side(rows)| && forall i :: 0 <= i < next ==> StringLe(ReportDate(Side(rows)[i]), date)
  }

  ghost predicate PointersFit(secs: seq<seq<Row>>, next: seq<nat>, date: string) {
    |next| == |secs| && forall n :: 0 <= n < |secs| ==> Fits(secs[n], next[n], date)
  }

  lemma LaterRowsAreLater(side: seq<Row>, next: nat, date: string)
    requires SortedBy(side, DatedNoLater) && next < |side| && !StringLe(ReportDate(side[next]), date)
    ensures forall i :: next <= i < |side| ==> !StringLe(ReportDate(side[i]), date)
  {
    forall i | next < i < |side|
      ensures !StringLe(ReportDate(side[i]), date)
    {
      assert DatedNoLater(side[next], side[i]);
      if StringLe(ReportDate(side[i]), date) {
        StringLeTransitive(ReportDate(side[next]), ReportDate(side[i]), date);
      }
    }
  }

  lemma PointerIsLatest(rows: seq<Row>, next: nat, date: string)
    requires Fits(rows, next, date)
    requires next < |Side(rows)| ==> !StringLe(ReportDate(Side(rows)[next]), date)
    ensures LatestUpTo(rows, date) == if next == 0 then None else Some(Side(rows)[next - 1])
  {
    var side := Side(rows);
    SideFacts(rows, date);
    if next < |side| {
      LaterRowsAreLater(side, next, date);
    }
    LatestAtPointer(side, next, date, |side|);
    assert side[..|side|] == side;
  }

  /** What one pass over the segments gathers for a date; the pointers only ever move forward. */
  method GatherRows(secs: seq<seq<Row>>, next: array<nat>, date: string) returns (rows: seq<Row>)
    requires PointersFit(secs, next[..], date)
    modifies next
    ensures PointersFit(secs, next[..], date)
    ensures rows == CarriedRows(secs, date)
  {
    rows := [];
    for n := 0 to |secs|
      invariant PointersFit(secs, next[..], date)
      invariant rows == CarriedRows(secs[..n], date)
    {
      assert secs[..n + 1][..n] == secs[..n];
      assert Fits(secs[n], next[..][n], date);
      var side := Side(secs[n]);
      var moved := Advance(side, next[n], date);
      PointerIsLatest(secs[n], moved, date);
      next[n] := moved;
      if moved > 0 {
        rows := rows + [side[moved - 1]];
      }
    }
    assert secs[..|secs|] == secs;
  }

  lemma PointersStillFit(secs: seq<seq<Row>>, next: seq<nat>, date: string, later: string)
    requires PointersFit(secs, next, date) && StringLe(date, later)
    ensures PointersFit(secs, next, later)
  {
    forall n | 0 <= n < |secs|
      ensures Fits(secs[n], next[n], later)
    {
      forall i | 0 <= i < next[n]
        ensures StringLe(ReportDate(Side(secs[n])[i]), later)
      {
        StringLeTransitive(ReportDate(Side(secs[n])[i]), date, later);
      }
    }
  }

  /** The consolidated row of a date: the sum of each segment's last known row. */
  ghost predicate RowOf(num: Numbers, secs: seq<seq<Row>>, date: string, r: Result<Row, ConsolidateError>) {
    CarriedRows(secs, date) != [] && SumRow(num, date, CarriedRows(secs, date)) == r
  }

  method SumDate(num: Numbers, secs: seq<seq<Row>>, next: array<nat>, date: string, ghost before: string)
    returns (r: Result<Row, ConsolidateError>)
    requires IsDate(secs, date) && PointersFit(secs, next[..], before) && StringLe(before, date)
    modifies next
    ensures PointersFit(secs, next[..], date) && RowOf(num, secs, date, r)
  {
    PointersStillFit(secs, next[..], before, date);
    var rows := GatherRows(secs, next, date);
    DatesCarrySomething(secs, date);
    r := SumNavRows(num, date, rows);
  }

  ghost predicate RowsOf(num: Numbers, secs: seq<seq<Row>>, dates: seq<string>, rows: seq<Row>) {
    |rows| <= |dates| && forall i :: 0 <= i < |rows| ==> RowOf(num, secs, dates[i], Success(rows[i]))
  }

  lemma OneMoreRow(num: Numbers, secs: seq<seq<Row>>, dates: seq<string>, rows: seq<Row>, r: Row)
    requires RowsOf(num, secs, dates, rows) && |rows| < |dates| && RowOf(num, secs, dates[|rows|], Success(r))
    ensures RowsOf(num, secs, dates, rows + [r])
  {
    forall i | 0 <= i < |rows + [r]|
      ensures RowOf(num, secs, dates[i], Success((rows + [r])[i]))
    {
      assert (rows + [r])[i] == if i < |rows| then rows[i] else r;
    }
  }

  method SumDates(num: Numbers, secs: seq<seq<Row>>, dates: seq<string>) returns (r: Result<seq<Row>, ConsolidateError>)
    requires Increasing(dates) && forall i :: 0 <= i < |dates| ==> IsDate(secs, dates[i])
    ensures r.Success? ==> |r.value| == |dates| && RowsOf(num, secs, dates, r.value)
    ensures r.Failure? ==> exists date :: date in dates && RowOf(num, secs, date, Failure(r.error))
  {
    var next := new nat[|secs|](_ => 0);
    assert PointersFit(secs, next[..], "");
    var out: seq<Row> := [];
    ghost var before := "";
    for k := 0 to |dates|
      invariant PointersFit(secs, next[..], before) && before == if k == 0 then "" else dates[k - 1]
      invariant |out| == k && RowsOf(num, secs, dates, out)
    {
      assert StringLe(before, dates[k]);
      var row := SumDate(num, secs, next, dates[k], before);
      if row.Failure? {
        assert dates[k] in dates;
        return Failure(row.error);
      }
      OneMoreRow(num, secs, dates, out, row.value);
      out := out + [row.value];
      before := dates[k];
    }
    r := Success(out);
  }

  /** One row for every date of the union, in order, or the refusal of one of the dates. */
  ghost predicate Consolidated(num: Numbers, secs: seq<seq<Row>>, r: Result<seq<Row>, ConsolidateError>, dates: seq<string>) {
    && Increasing(dates) && (forall date :: date in dates <==> IsDate(secs, date))
    && (r.Success? ==> |r.value| == |dates| && RowsOf(num, secs, dates, r.value))
    && (r.Success? ==> forall i :: 0 <= i < |dates| ==> ReportDate(r.value[i]) == dates[i])
    && (r.Failure? ==> exists date :: date in dates && RowOf(num, secs, date, Failure(r.error)))
  }

  /** The consolidated NAV: a row for each date any segment reports, made of what every segment carries then. */
  method SumSegmentNav(num: Numbers, secs: seq<seq<Row>>) returns (r: Result<seq<Row>, ConsolidateError>)
    ensures exists dates :: Consolidated(num, secs, r, dates)
  {
    var all := CollectDates(secs);
    var dates := SortedStrings(all);
    r := SumDates(num, secs, dates);
    if r.Success? {
      forall i | 0 <= i < |dates|
        ensures ReportDate(r.value[i]) == dates[i]
      {
        RowIsDated(num, secs, dates[i], r.value[i]);
      }
    }
    assert Consolidated(num, secs, r, dates);
  }

  /** Carried rows are dated, so the row of a date has a date to carry. */
  lemma {:induction false} CarriedAreDated(secs: seq<seq<Row>>, date: string)
    ensures CarriedRows(secs, date) != [] ==> Names(FlatAttrs(CarriedRows(secs, date)), "reportDate")
  {
    if secs != [] {
      var n := |secs| - 1;
      var before, last := CarriedRows(secs[..n], date), LatestUpTo(secs[n], date);
      CarriedAreDated(secs[..n], date);
      if last.Some? {
        LatestIsARow(secs[n], date);
        NamedIfFound(last.value.attrs, "reportDate");
        assert (before + [last.value])[..|before|] == before;
        NamesConcat(FlatAttrs(before), last.value.attrs, "reportDate");
      } else {
        assert before + [] == before;
      }
    }
  }

  lemma RowIsDated(num: Numbers, secs: seq<seq<Row>>, date: string, row: Row)
    requires RowOf(num, secs, date, Success(row))
    ensures ReportDate(row) == date
  {
    CarriedAreDated(secs, date);
    SumRowKeepsText(num, date, CarriedRows(secs, date), "reportDate");
  }

  /** The report dates of the consolidated rows are those of the segments' rows, each once, in order. */
  lemma ConsolidatedDates(num: Numbers, secs: seq<seq<Row>>, r: Result<seq<Row>, ConsolidateError>, dates: seq<string>, date: string)
    requires Consolidated(num, secs, r, dates) && r.Success?
    ensures forall i, j :: 0 <= i < j < |r.value| ==> StringLt(ReportDate(r.value[i]), ReportDate(r.value[j]))
    ensures (exists i :: 0 <= i < |r.value| && ReportDate(r.value[i]) == date) <==> IsDate(secs, date)
  {
    if IsDate(secs, date) {
      assert date in dates;
      var i :| 0 <= i < |dates| && dates[i] == date;
      assert ReportDate(r.value[i]) == date;
    }
    if i :| 0 <= i < |r.value| && ReportDate(r.value[i]) == date {
      assert dates[i] in dates;
    }
  }

  // ---------------------------------------------------------------- what a date is worth

  ghost predicate UniqueNames(attrs: seq<Attr>) {
    forall i, j :: 0 <= i < j < |attrs| ==> attrs[i].name != attrs[j].name
  }

  /** No element names an attribute twice, as section 3.1 of XML 1.0 requires. */
  ghost predicate WellFormed(rows: seq<Row>) {
    forall r :: r in rows ==> UniqueNames(r.attrs)
  }

  /** The amount a row carries under a name, 0 when it has none. */
  function Amount(num: Numbers, r: Row, name: string): real {
    var v := AttrOf(r.attrs, name);
    if v != "" && num.parse(v).Some? then num.parse(v).value else 0.0
  }

  /** What the segments are worth together on a date: each its last known row, 0 before its first. */
  function Worth(num: Numbers, secs: seq<seq<Row>>, date: string, name: string): real {
    if secs == [] then 0.0
    else
      var r := LatestUpTo(secs[|secs| - 1], date);
      Worth(num, secs[..|secs| - 1], date, name) + if r.Some? then Amount(num, r.value, name) else 0.0
  }

  lemma {:induction false} TotalOfConcat(num: Numbers, a: seq<Attr>, b: seq<Attr>, name: string)
    ensures Total(num, a + b, name) == Total(num, a, name) + Total(num, b, name)
  {
    if b == [] {
      assert a + b == a;
    } else {
      assert (a + b)[..|a + b| - 1] == a + b[..|b| - 1];
      TotalOfConcat(num, a, b[..|b| - 1], name);
    }
  }

  lemma {:induction false} TotalOfAbsent(num: Numbers, attrs: seq<Attr>, name: string)
    requires forall i :: 0 <= i < |attrs| ==> attrs[i].name != name
    ensures Total(num, attrs, name) == 0.0
  {
    if attrs != [] {
      TotalOfAbsent(num, attrs[..|attrs| - 1], name);
    }
  }

  lemma {:induction false} TotalOfRow(num: Numbers, attrs: seq<Attr>, name: string)
    requires UniqueNames(attrs)
    ensures Total(num, attrs, name) == Amount(num, Row("", attrs, ""), name)
  {
    if attrs != [] {
      var head, tail := attrs[0], attrs[1..];
      assert attrs == [head] + tail;
      TotalOfConcat(num, [head], tail, name);
      assert [head][..0] == [];
      if head.name == name {
        TotalOfAbsent(num, tail, name);
      } else {
        TotalOfRow(num, tail, name);
      }
    }
  }

  lemma {:induction false} CarriedTotal(num: Numbers, secs: seq<seq<Row>>, date: string, name: string)
    requires forall n :: 0 <= n < |secs| ==> WellFormed(secs[n])
    ensures Total(num, FlatAttrs(CarriedRows(secs, date)), name) == Worth(num, secs, date, name)
  {
    if secs != [] {
      var n := |secs| - 1;
      CarriedTotal(num, secs[..n], date, name);
      var before, last := CarriedRows(secs[..n], date), LatestUpTo(secs[n], date);
      if last.Some? {
        LatestIsARow(secs[n], date);
        assert (before + [last.value])[..|before|] == before;
        TotalOfConcat(num, FlatAttrs(before), last.value.attrs, name);
        TotalOfRow(num, last.value.attrs, name);
      } else {
        assert before + [] == before;
      }
    }
  }

  /** On every date each amount of the consolidated row is the sum over the segments of the amount in the
      segment's last row dated on or before it. */
  lemma ConsolidatedAmount(num: Numbers, secs: seq<seq<Row>>, date: string, name: string)
    requires Exact(num) && name !in TEXT_ATTRS
    requires forall n :: 0 <= n < |secs| ==> WellFormed(secs[n])
    requires CarriedRows(secs, date) != [] && SumRow(num, date, CarriedRows(secs, date)).Success?
    requires Names(FlatAttrs(CarriedRows(secs, date)), name)
    requires AllAmounts(num, FlatAttrs(CarriedRows(secs, date)), name)
    ensures num.parse(AttrOf(SumRow(num, date, CarriedRows(secs, date)).value.attrs, name)) == Some(Worth(num, secs, date, name))
  {
    SumRowAdds(num, date, CarriedRows(secs, date), name);
    CarriedTotal(num, secs, date, name);
  }

  // ---------------------------------------------------------------- a sweep between the segments

  /** The row with the amount under a name moved by x. */
  function Moved(num: Numbers, r: Row, name: string, x: real): Row {
    r.(attrs := MovedAttrs(num, r.attrs, name, x))
  }

  function MovedAttrs(num: Numbers, attrs: seq<Attr>, name: string, x: real): seq<Attr> {
    if attrs == [] then [Attr(name, num.format(x))]
    else if attrs[0].name == name then
      [Attr(name, num.format((if attrs[0].value != "" && num.parse(attrs[0].value).Some? then num.parse(attrs[0].value).value else 0.0) + x))] + attrs[1..]
    else [attrs[0]] + MovedAttrs(num, attrs[1..], name, x)
  }

  /** An amount moved by a decimal is one that can be written. */
  lemma MovedIsDecimal(num: Numbers, value: string, x: real)
    requires Exact(num) && IsDecimal(x)
    ensures IsDecimal((if value != "" && num.parse(value).Some? then num.parse(value).value else 0.0) + x)
  {
    if value != "" && num.parse(value).Some? {
      SumIsDecimal(num.parse(value).value, x);
    }
  }

  lemma {:induction false} MovedReads(num: Numbers, attrs: seq<Attr>, name: string, x: real, other: string)
    requires Exact(num) && IsDecimal(x)
    ensures AttrOf(MovedAttrs(num, attrs, name, x), name) != ""
    ensures num.parse(AttrOf(MovedAttrs(num, attrs, name, x), name)) == Some(Amount(num, Row("", attrs, ""), name) + x)
    ensures other != name ==> AttrOf(MovedAttrs(num, attrs, name, x), other) == AttrOf(attrs, other)
  {
    if attrs != [] {
      var moved := MovedAttrs(num, attrs, name, x);
      if attrs[0].name == name {
        MovedIsDecimal(num, attrs[0].value, x);
        assert moved[1..] == attrs[1..];
      } else {
        MovedReads(num, attrs[1..], name, x, other);
        assert moved[1..] == MovedAttrs(num, attrs[1..], name, x);
      }
    } else {
      assert MovedAttrs(num, attrs, name, x)[1..] == [];
    }
  }

  /** A side after x moved into it on day d: every row dated d or later shows it. */
  function Swept(num: Numbers, rows: seq<Row>, d: string, name: string, x: real): seq<Row> {
    if rows == [] then []
    else
      var r := rows[|rows| - 1];
      Swept(num, rows[..|rows| - 1], d, name, x) + [SweptRow(num, r, d, name, x)]
  }

  function SweptRow(num: Numbers, r: Row, d: string, name: string, x: real): Row {
    if StringLe(d, ReportDate(r)) then Moved(num, r, name, x) else r
  }

  lemma SweptRowKeepsItsDate(num: Numbers, r: Row, d: string, name: string, x: real)
    requires Exact(num) && IsDecimal(x) && name != "reportDate"
    ensures ReportDate(SweptRow(num, r, d, name, x)) == ReportDate(r)
  {
    MovedReads(num, r.attrs, name, x, "reportDate");
  }

  /** What a side carries on a date after a sweep is the same row, swept. */
  lemma {:induction false} SweptLatest(num: Numbers, rows: seq<Row>, d: string, name: string, x: real, date: string)
    requires Exact(num) && IsDecimal(x) && name != "reportDate"
    ensures LatestUpTo(Swept(num, rows, d, name, x), date) ==
      var r := LatestUpTo(rows, date); if r.Some? then Some(SweptRow(num, r.value, d, name, x)) else None
  {
    if rows != [] {
      var n := |rows| - 1;
      SweptLatest(num, rows[..n], d, name, x, date);
      var r, best := rows[n], LatestUpTo(rows[..n], date);
      SweptRowKeepsItsDate(num, r, d, name, x);
      if best.Some? {
        SweptRowKeepsItsDate(num, best.value, d, name, x);
      }
      LatestOfAppend(Swept(num, rows[..n], d, name, x), SweptRow(num, r, d, name, x), date);
    }
  }

  /** Whether a side's carried row on a date already shows a sweep of day d. */
  predicate Shows(rows: seq<Row>, d: string, date: string) {
    var r := LatestUpTo(rows, date);
    r.Some? && StringLe(d, ReportDate(r.value))
  }

  lemma SweptAmount(num: Numbers, rows: seq<Row>, d: string, name: string, x: real, date: string)
    requires Exact(num) && IsDecimal(x) && name != "reportDate"
    ensures Worth(num, [Swept(num, rows, d, name, x)], date, name)
      == Worth(num, [rows], date, name) + if Shows(rows, d, date) then x else 0.0
  {
    SweptLatest(num, rows, d, name, x, date);
    var r := LatestUpTo(rows, date);
    if r.Some? {
      MovedReads(num, r.value.attrs, name, x, "reportDate");
      assert Amount(num, r.value, name) == Amount(num, Row("", r.value.attrs, ""), name);
    }
    assert [rows][..0] == [] && [Swept(num, rows, d, name, x)][..0] == [];
  }

  /** A sweep of x out of one segment and into the other on day d adds x where the second shows it and takes x
      off where the first does. */
  lemma WorthMoves(num: Numbers, base: seq<Row>, segment: seq<Row>, d: string, name: string, x: real, date: string)
    requires Exact(num) && IsDecimal(x) && name != "reportDate"
    ensures Worth(num, [Swept(num, base, d, name, -x), Swept(num, segment, d, name, x)], date, name) == Worth(num, [base, segment], date, name)
      - (if Shows(base, d, date) then x else 0.0) + (if Shows(segment, d, date) then x else 0.0)
  {
    NegationIsDecimal(x);
    SweptAmount(num, base, d, name, -x, date);
    SweptAmount(num, segment, d, name, x, date);
    WorthOfBoth(num, base, segment, Swept(num, base, d, name, -x), Swept(num, segment, d, name, x), date, name);
  }

  lemma WorthOfBoth(num: Numbers, a: seq<Row>, b: seq<Row>, a': seq<Row>, b': seq<Row>, date: string, name: string)
    ensures Worth(num, [a', b'], date, name) - Worth(num, [a, b], date, name)
      == (Worth(num, [a'], date, name) - Worth(num, [a], date, name)) + (Worth(num, [b'], date, name) - Worth(num, [b], date, name))
  {
    WorthOfTwo(num, a, b, date, name);
    WorthOfTwo(num, a', b', date, name);
  }

  lemma WorthOfTwo(num: Numbers, a: seq<Row>, b: seq<Row>, date: string, name: string)
    ensures Worth(num, [a, b], date, name) == Worth(num, [a], date, name) + Worth(num, [b], date, name)
  {
    assert [a, b][..1] == [a] && [a][..0] == [] && [b][..0] == [];
  }

  lemma {:induction false} ShowsFromItsDay(rows: seq<Row>, d: string, date: string, r: Row)
    requires r in rows && ReportDate(r) == d && d != ""
    ensures Shows(rows, d, date) <==> StringLe(d, date)
  {
    var n := |rows| - 1;
    LatestIsARow(rows, date);
    if Shows(rows, d, date) {
      StringLeTransitive(d, ReportDate(LatestUpTo(rows, date).value), date);
    }
    if StringLe(d, date) {
      LatestIsNoOlder(rows, date, r);
    }
  }

  /** The carried row is no older than any dated row up to the date. */
  lemma {:induction false} LatestIsNoOlder(rows: seq<Row>, date: string, r: Row)
    requires r in rows && ReportDate(r) != "" && StringLe(ReportDate(r), date)
    ensures LatestUpTo(rows, date).Some? && DatedNoLater(r, LatestUpTo(rows, date).value)
  {
    var n := |rows| - 1;
    assert rows == rows[..n] + [rows[n]];
    StringLeTotal(ReportDate(r), ReportDate(r));
    if r in rows[..n] {
      LatestIsNoOlder(rows[..n], date, r);
      var best := LatestUpTo(rows[..n], date).value;
      if Replaces(Some(best), rows[n], date) {
        StringLeTransitive(ReportDate(r), ReportDate(best), ReportDate(rows[n]));
      }
    } else {
      var best := LatestUpTo(rows[..n], date);
      if best.Some? {
        StringLeTotal(ReportDate(best.value), ReportDate(r));
      }
    }
  }

  // ---------------------------------------------------------------- the sweep in the written rows

  /** The currencies named by some attributes, in order. */
  function CurrenciesOf(attrs: seq<Attr>): seq<string> {
    if attrs == [] then []
    else
      var a := attrs[|attrs| - 1];
      CurrenciesOf(attrs[..|attrs| - 1]) + if a.name == "currency" then [a.value] else []
  }

  /** A named currency differs from the first one. */
  predicate Mixed(currencies: seq<string>) {
    |currencies| > 0 && currencies[0] != "" && exists i :: 0 <= i < |currencies| && currencies[i] != "" && currencies[i] != currencies[0]
  }

  lemma MixedOneMore(currencies: seq<string>, v: string)
    ensures Mixed(currencies + [v]) <==>
      Mixed(currencies) || (currencies != [] && currencies[0] != "" && v != "" && v != currencies[0])
  {
    var all := currencies + [v];
    if Mixed(currencies) {
      var i :| 0 <= i < |currencies| && currencies[i] != "" && currencies[i] != currencies[0];
      assert all[i] == currencies[i];
    }
    assert all[|currencies|] == v;
  }

  /** What the adding of attributes knows of currencies: the first one named. */
  ghost predicate KnowsFirst(acc: Acc, currencies: seq<string>) {
    if currencies == [] then "currency" !in acc.first else "currency" in acc.first && acc.first["currency"] == currencies[0]
  }

  lemma NamedKnowsFirst(num: Numbers, acc: Acc, a: Attr, currencies: seq<string>)
    requires KnowsFirst(acc, currencies)
    ensures KnowsFirst(Counted(num, Named(acc, a), a), if a.name == "currency" then currencies + [a.value] else currencies)
    ensures Clashes(Named(acc, a), a) <==>
      a.name == "currency" && currencies != [] && currencies[0] != "" && a.value != "" && a.value != currencies[0]
  {
    CountingKeepsNames(num, Named(acc, a), a);
  }

  /** Adding is refused exactly when the currencies named are mixed. */
  lemma {:induction false} RefusedIffMixed(num: Numbers, attrs: seq<Attr>)
    ensures AddAttrs(num, attrs).None? <==> Mixed(CurrenciesOf(attrs))
    ensures AddAttrs(num, attrs).Some? ==> KnowsFirst(AddAttrs(num, attrs).value, CurrenciesOf(attrs))
  {
    if attrs != [] {
      var before, a := attrs[..|attrs| - 1], attrs[|attrs| - 1];
      RefusedIffMixed(num, before);
      MixedOneMore(CurrenciesOf(before), a.value);
      assert a.name != "currency" ==> CurrenciesOf(attrs) == CurrenciesOf(before);
      if AddAttrs(num, before).Some? {
        NamedKnowsFirst(num, AddAttrs(num, before).value, a, CurrenciesOf(before));
      }
    }
  }

  lemma {:induction false} CurrenciesOfConcat(a: seq<Attr>, b: seq<Attr>)
    ensures CurrenciesOf(a + b) == CurrenciesOf(a) + CurrenciesOf(b)
  {
    if b == [] {
      assert a + b == a;
    } else {
      assert (a + b)[..|a + b| - 1] == a + b[..|b| - 1];
      CurrenciesOfConcat(a, b[..|b| - 1]);
    }
  }

  /** The second attributes can stand in for the first: the same currencies, and amounts where there were. */
  ghost predicate StandIn(num: Numbers, name: string, attrs: seq<Attr>, attrs': seq<Attr>) {
    && CurrenciesOf(attrs') == CurrenciesOf(attrs)
    && (Names(attrs, name) ==> Names(attrs', name))
    && (AllAmounts(num, attrs, name) ==> AllAmounts(num, attrs', name))
  }

  lemma StandInConcat(num: Numbers, name: string, a: seq<Attr>, a': seq<Attr>, b: seq<Attr>, b': seq<Attr>)
    requires StandIn(num, name, a, a') && StandIn(num, name, b, b')
    ensures StandIn(num, name, a + b, a' + b')
  {
    CurrenciesOfConcat(a, b);
    CurrenciesOfConcat(a', b');
    AmountsConcat(num, a, b, name);
    AmountsConcat(num, a', b', name);
    NamesConcat(a, b, name);
    NamesConcat(a', b', name);
  }

  lemma AmountsConcat(num: Numbers, a: seq<Attr>, b: seq<Attr>, name: string)
    ensures AllAmounts(num, a + b, name) <==> AllAmounts(num, a, name) && AllAmounts(num, b, name)
  {
    assert forall x :: x in a + b <==> x in a || x in b;
  }

  lemma NamesConcat(a: seq<Attr>, b: seq<Attr>, name: string)
    ensures Names(a + b, name) <==> Names(a, name) || Names(b, name)
  {
    if Names(a, name) {
      var i :| 0 <= i < |a| && a[i].name == name;
      assert (a + b)[i].name == name;
    }
    if Names(b, name) {
      var i :| 0 <= i < |b| && b[i].name == name;
      assert (a + b)[|a| + i].name == name;
    }
  }

  /** The attributes with an amount moved stand in for those before. */
  lemma {:induction false} MovedStandsIn(num: Numbers, attrs: seq<Attr>, name: string, x: real)
    requires Exact(num) && IsDecimal(x) && name != "currency"
    ensures StandIn(num, name, attrs, MovedAttrs(num, attrs, name, x))
  {
    if attrs == [] {
      AmountStandsIn(num, [], Attr(name, num.format(x)), name);
    } else {
      var head, rest := [attrs[0]], attrs[1..];
      assert attrs == head + rest;
      if attrs[0].name == name {
        MovedHeadStandsIn(num, attrs, name, x);
      } else {
        MovedStandsIn(num, rest, name, x);
        StandInSame(num, name, head);
        StandInConcat(num, name, head, head, rest, MovedAttrs(num, rest, name, x));
      }
    }
  }

  lemma MovedHeadStandsIn(num: Numbers, attrs: seq<Attr>, name: string, x: real)
    requires Exact(num) && IsDecimal(x) && name != "currency" && attrs != [] && attrs[0].name == name
    ensures StandIn(num, name, attrs, MovedAttrs(num, attrs, name, x))
  {
    MovedIsDecimal(num, attrs[0].value, x);
    var v := (if attrs[0].value != "" && num.parse(attrs[0].value).Some? then num.parse(attrs[0].value).value else 0.0) + x;
    HeadSwapped(num, attrs, Attr(name, num.format(v)), name);
  }

  /** Another amount in the place of the first attribute. */
  lemma HeadSwapped(num: Numbers, attrs: seq<Attr>, a: Attr, name: string)
    requires name != "currency" && attrs != [] && attrs[0].name == name == a.name && num.parse(a.value).Some?
    ensures StandIn(num, name, attrs, [a] + attrs[1..])
  {
    var head, rest := [attrs[0]], attrs[1..];
    StandInSame(num, name, rest);
    AmountStandsIn(num, head, a, name);
    StandInConcat(num, name, head, [a], rest, rest);
    assert attrs == head + rest;
  }

  lemma {:induction false} MovedAddsOnlyItsName(num: Numbers, attrs: seq<Attr>, name: string, x: real, a: Attr)
    requires a in MovedAttrs(num, attrs, name, x)
    ensures a.name == name || a in attrs
  {
    if attrs != [] && a.name != name {
      var rest := attrs[1..];
      if attrs[0].name == name {
        assert a in rest;
      } else if a != attrs[0] {
        assert a in MovedAttrs(num, rest, name, x);
        MovedAddsOnlyItsName(num, rest, name, x, a);
      }
      assert forall y :: y in rest ==> y in attrs;
    }
  }

  lemma {:induction false} MovedKeepsUnique(num: Numbers, attrs: seq<Attr>, name: string, x: real)
    requires UniqueNames(attrs)
    ensures UniqueNames(MovedAttrs(num, attrs, name, x))
  {
    if attrs != [] {
      if attrs[0].name == name {
        assert forall i :: 0 < i < |attrs| ==> MovedAttrs(num, attrs, name, x)[i] == attrs[i];
      } else {
        var rest' := MovedAttrs(num, attrs[1..], name, x);
        MovedKeepsUnique(num, attrs[1..], name, x);
        forall a | a in rest'
          ensures a.name == name || a in attrs[1..]
        {
          MovedAddsOnlyItsName(num, attrs[1..], name, x, a);
        }
        HeadStaysUnique(attrs, rest', name);
      }
    }
  }

  lemma HeadStaysUnique(attrs: seq<Attr>, rest': seq<Attr>, name: string)
    requires attrs != [] && attrs[0].name != name && (UniqueNames(attrs[1..]) ==> UniqueNames(rest'))
    requires forall a :: a in rest' ==> a.name == name || a in attrs[1..]
    ensures UniqueNames(attrs) ==> UniqueNames([attrs[0]] + rest')
  {
    if UniqueNames(attrs) {
      var all := [attrs[0]] + rest';
      assert UniqueNames(attrs[1..]);
      forall i, j | 0 <= i < j < |all|
        ensures all[i].name != all[j].name
      {
        assert all[j] == rest'[j - 1] && rest'[j - 1] in rest';
        if i == 0 && all[j] in attrs[1..] {
          var k :| 0 <= k < |attrs[1..]| && attrs[1..][k] == all[j];
          assert attrs[k + 1] == all[j];
        }
      }
    }
  }

  lemma StandInSame(num: Numbers, name: string, attrs: seq<Attr>)
    ensures StandIn(num, name, attrs, attrs)
  {
  }

  /** An amount stands in for an attribute of its name, or for none. */
  lemma AmountStandsIn(num: Numbers, was: seq<Attr>, a: Attr, name: string)
    requires name != "currency" && a.name == name && num.parse(a.value).Some? && |was| <= 1 && (was == [] || was[0].name == name)
    ensures StandIn(num, name, was, [a])
  {
    assert a in [a] && [a][..0] == [];
    assert was != [] ==> was[..0] == [];
  }

  lemma SweptRowStandsIn(num: Numbers, r: Row, d: string, name: string, x: real)
    requires Exact(num) && IsDecimal(x) && name != "currency"
    ensures StandIn(num, name, r.attrs, SweptRow(num, r, d, name, x).attrs)
  {
    MovedStandsIn(num, r.attrs, name, x);
    StandInSame(num, name, r.attrs);
  }

  lemma {:induction false} SweptIsWellFormed(num: Numbers, rows: seq<Row>, d: string, name: string, x: real)
    requires WellFormed(rows)
    ensures WellFormed(Swept(num, rows, d, name, x))
  {
    if rows != [] {
      var n := |rows| - 1;
      SweptIsWellFormed(num, rows[..n], d, name, x);
      assert rows[n] in rows;
      MovedKeepsUnique(num, rows[n].attrs, name, x);
      var r' := SweptRow(num, rows[n], d, name, x);
      assert forall r :: r in Swept(num, rows[..n], d, name, x) + [r'] ==> r in Swept(num, rows[..n], d, name, x) || r == r';
    }
  }

  /** What one segment brings to a date's row. */
  function Brought(rows: seq<Row>, date: string): seq<Attr> {
    AttrsOf(LatestUpTo(rows, date))
  }

  function AttrsOf(r: Option<Row>): seq<Attr> {
    if r.Some? then r.value.attrs else []
  }

  lemma CarriedOfTwo(a: seq<Row>, b: seq<Row>, date: string)
    ensures CarriedRows([a, b], date) == One(LatestUpTo(a, date)) + One(LatestUpTo(b, date))
  {
    assert [a, b][..1] == [a] && [a][..0] == [];
    assert CarriedRows([a], date) == [] + One(LatestUpTo(a, date));
  }

  function One(r: Option<Row>): seq<Row> {
    if r.Some? then [r.value] else []
  }

  lemma FlatOfOneMore(rows: seq<Row>, r: Option<Row>)
    ensures FlatAttrs(rows + One(r)) == FlatAttrs(rows) + AttrsOf(r)
  {
    if r.Some? {
      assert (rows + [r.value])[..|rows|] == rows;
    } else {
      assert rows + [] == rows;
    }
  }

  lemma FlatOfTwo(a: seq<Row>, b: seq<Row>, date: string)
    ensures FlatAttrs(CarriedRows([a, b], date)) == Brought(a, date) + Brought(b, date)
    ensures CarriedRows([a, b], date) == [] <==> LatestUpTo(a, date).None? && LatestUpTo(b, date).None?
  {
    CarriedOfTwo(a, b, date);
    FlatOfPair(LatestUpTo(a, date), LatestUpTo(b, date));
  }

  lemma FlatOfPair(ra: Option<Row>, rb: Option<Row>)
    ensures FlatAttrs(One(ra) + One(rb)) == AttrsOf(ra) + AttrsOf(rb)
  {
    FlatOfOne(ra);
    FlatOfOneMore(One(ra), rb);
  }

  lemma FlatOfOne(r: Option<Row>)
    ensures FlatAttrs(One(r)) == AttrsOf(r)
  {
    if r.Some? {
      assert One(r)[..0] == [];
    }
  }

  /** A date's row can be written, and the amount under a name added. */
  ghost predicate Consolidates(num: Numbers, secs: seq<seq<Row>>, date: string, name: string) {
    var rows := CarriedRows(secs, date);
    rows != [] && SumRow(num, date, rows).Success? && Names(FlatAttrs(rows), name) && AllAmounts(num, FlatAttrs(rows), name)
  }

  /** The amount read back from the consolidated row of a date, `None` when there is no such row. */
  function ReadAmount(num: Numbers, secs: seq<seq<Row>>, date: string, name: string): Option<real> {
    var rows := CarriedRows(secs, date);
    if rows == [] || SumRow(num, date, rows).Failure? then None else num.parse(AttrOf(SumRow(num, date, rows).value.attrs, name))
  }

  /** On a date, the second segment can be carried in place of the first. */
  ghost predicate Replaceable(num: Numbers, name: string, rows: seq<Row>, rows': seq<Row>, date: string) {
    && StandIn(num, name, Brought(rows, date), Brought(rows', date))
    && (LatestUpTo(rows', date).None? <==> LatestUpTo(rows, date).None?)
  }

  lemma SweptBringsStandIn(num: Numbers, rows: seq<Row>, d: string, name: string, x: real, date: string)
    requires Exact(num) && IsDecimal(x) && name != "currency" && name != "reportDate"
    ensures Replaceable(num, name, rows, Swept(num, rows, d, name, x), date)
  {
    SweptLatest(num, rows, d, name, x, date);
    var r := LatestUpTo(rows, date);
    if r.Some? {
      SweptRowStandsIn(num, r.value, d, name, x);
    } else {
      StandInSame(num, name, []);
    }
  }

  lemma IsText()
    ensures "currency" in TEXT_ATTRS && "reportDate" in TEXT_ATTRS
  {
  }

  lemma PairStandsIn(num: Numbers, name: string, a: seq<Row>, a': seq<Row>, b: seq<Row>, b': seq<Row>, date: string)
    requires Replaceable(num, name, a, a', date) && Replaceable(num, name, b, b', date)
    ensures StandIn(num, name, FlatAttrs(CarriedRows([a, b], date)), FlatAttrs(CarriedRows([a', b'], date)))
    ensures CarriedRows([a, b], date) != [] ==> CarriedRows([a', b'], date) != []
  {
    StandInConcat(num, name, Brought(a, date), Brought(a', date), Brought(b, date), Brought(b', date));
    FlatOfTwo(a, b, date);
    FlatOfTwo(a', b', date);
  }

  lemma SummedIffNotMixed(num: Numbers, date: string, rows: seq<Row>)
    requires rows != []
    ensures SumRow(num, date, rows).Success? <==> !Mixed(CurrenciesOf(FlatAttrs(rows)))
  {
    RefusedIffMixed(num, FlatAttrs(rows));
  }

  lemma PairConsolidates(num: Numbers, name: string, a: seq<Row>, a': seq<Row>, b: seq<Row>, b': seq<Row>, date: string)
    requires Replaceable(num, name, a, a', date) && Replaceable(num, name, b, b', date) && Consolidates(num, [a, b], date, name)
    ensures Consolidates(num, [a', b'], date, name)
  {
    PairStandsIn(num, name, a, a', b, b', date);
    SummedIffNotMixed(num, date, CarriedRows([a, b], date));
    SummedIffNotMixed(num, date, CarriedRows([a', b'], date));
  }

  /** A sweep between two segments does not stop a date from being consolidated. */
  lemma SweptConsolidates(num: Numbers, base: seq<Row>, segment: seq<Row>, d: string, name: string, x: real, date: string)
    requires Exact(num) && IsDecimal(x) && name !in TEXT_ATTRS && Consolidates(num, [base, segment], date, name)
    ensures Consolidates(num, [Swept(num, base, d, name, -x), Swept(num, segment, d, name, x)], date, name)
  {
    IsText();
    NegationIsDecimal(x);
    SweptBringsStandIn(num, base, d, name, -x, date);
    SweptBringsStandIn(num, segment, d, name, x, date);
    PairConsolidates(num, name, base, Swept(num, base, d, name, -x), segment, Swept(num, segment, d, name, x), date);
  }

  /** Of two segments, what is read from the consolidated row is what they are worth together. */
  lemma PairReads(num: Numbers, a: seq<Row>, b: seq<Row>, date: string, name: string)
    requires Exact(num) && name !in TEXT_ATTRS && WellFormed(a) && WellFormed(b) && Consolidates(num, [a, b], date, name)
    ensures ReadAmount(num, [a, b], date, name) == Some(Worth(num, [a, b], date, name))
  {
    ConsolidatedAmount(num, [a, b], date, name);
  }

  /** Two sides that read as two others exactly when they are worth as much. */
  ghost predicate ReadsAsWorth(num: Numbers, was: seq<seq<Row>>, now: seq<seq<Row>>, date: string, name: string) {
    ReadAmount(num, now, date, name) == ReadAmount(num, was, date, name) <==> Worth(num, now, date, name) == Worth(num, was, date, name)
  }

  lemma SameReadIffSameWorth(num: Numbers, a: seq<Row>, b: seq<Row>, a': seq<Row>, b': seq<Row>, date: string, name: string)
    requires Exact(num) && name !in TEXT_ATTRS && WellFormed(a) && WellFormed(b) && WellFormed(a') && WellFormed(b')
    requires Consolidates(num, [a, b], date, name) && Consolidates(num, [a', b'], date, name)
    ensures ReadsAsWorth(num, [a, b], [a', b'], date, name)
  {
    PairReads(num, a, b, date, name);
    PairReads(num, a', b', date, name);
  }

  /** A sweep changes what is read exactly as it changes the worth. */
  lemma SweptReadIffWorth(num: Numbers, base: seq<Row>, segment: seq<Row>, d: string, name: string, x: real, date: string)
    requires Exact(num) && IsDecimal(x) && name !in TEXT_ATTRS && WellFormed(base) && WellFormed(segment)
    requires Consolidates(num, [base, segment], date, name)
    ensures Consolidates(num, [Swept(num, base, d, name, -x), Swept(num, segment, d, name, x)], date, name)
    ensures ReadsAsWorth(num, [base, segment], [Swept(num, base, d, name, -x), Swept(num, segment, d, name, x)], date, name)
  {
    SweptConsolidates(num, base, segment, d, name, x, date);
    SweptIsWellFormed(num, base, d, name, -x);
    SweptIsWellFormed(num, segment, d, name, x);
    SameReadIffSameWorth(num, base, segment, Swept(num, base, d, name, -x), Swept(num, segment, d, name, x), date, name);
  }

  /** A sweep of x out of one segment and into the other on day d leaves the amount in the consolidated row of a
      date as it was exactly when both segments' carried rows show it, or neither does; the row is written
      either way. */
  lemma SweepIsNeutralIff(num: Numbers, base: seq<Row>, segment: seq<Row>, d: string, name: string, x: real, date: string)
    requires Exact(num) && IsDecimal(x) && x != 0.0 && name !in TEXT_ATTRS && WellFormed(base) && WellFormed(segment)
    requires Consolidates(num, [base, segment], date, name)
    ensures Consolidates(num, [Swept(num, base, d, name, -x), Swept(num, segment, d, name, x)], date, name)
    ensures ReadAmount(num, [Swept(num, base, d, name, -x), Swept(num, segment, d, name, x)], date, name) == ReadAmount(num, [base, segment], date, name)
      <==> (Shows(base, d, date) <==> Shows(segment, d, date))
  {
    SweptReadIffWorth(num, base, segment, d, name, x, date);
    IsText();
    WorthMoves(num, base, segment, d, name, x, date);
  }

  /** When both segments have a row on the day of the sweep, no date's consolidated amount moves. */
  lemma SameDaySweepIsNeutral(num: Numbers, base: seq<Row>, segment: seq<Row>, d: string, name: string, x: real, date: string)
    requires Exact(num) && IsDecimal(x) && name !in TEXT_ATTRS && WellFormed(base) && WellFormed(segment)
    requires Dates(base, d) && Dates(segment, d) && Consolidates(num, [base, segment], date, name)
    ensures ReadAmount(num, [Swept(num, base, d, name, -x), Swept(num, segment, d, name, x)], date, name) == ReadAmount(num, [base, segment], date, name)
  {
    SweptReadIffWorth(num, base, segment, d, name, x, date);
    IsText();
    WorthMoves(num, base, segment, d, name, x, date);
    var a :| a in base && ReportDate(a) == d;
    var b :| b in segment && ReportDate(b) == d;
    ShowsFromItsDay(base, d, date, a);
    ShowsFromItsDay(segment, d, date, b);
  }
}
