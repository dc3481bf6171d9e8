/** Flex statements as the merge and the consolidation read them. */
module FlexStatement {
  import opened Wrappers

  datatype Attr = Attr(name: string, value: string)

  datatype Row = Row(name: string, attrs: seq<Attr>, inner: string)

  /** The sections by name; the ones the merge treats apart, and any other. */
  datatype SectionName = EquitySummaryInBase | OpenPositions | CashReport | Other(name: OtherName)

  type OtherName = n: string | n != "EquitySummaryInBase" && n != "OpenPositions" && n != "CashReport" witness ""

  datatype Section = Section(name: SectionName, attrs: seq<Attr>, rows: seq<Row>)

  datatype Statement = Statement(attrs: seq<Attr>, sections: seq<Section>)

  /** The value of the first attribute of that name, "" when there is none. */
  function AttrOf(attrs: seq<Attr>, name: string): string {
    if attrs == [] then "" else if attrs[0].name == name then attrs[0].value else AttrOf(attrs[1..], name)
  }

  ghost predicate Names(attrs: seq<Attr>, name: string) {
    exists i :: 0 <= i < |attrs| && attrs[i].name == name
  }

  /** The first attribute of the name decides, and none reads as empty. */
  lemma {:induction false} AttrOfIsTheFirst(attrs: seq<Attr>, name: string)
    ensures !Names(attrs, name) ==> AttrOf(attrs, name) == ""
    ensures Names(attrs, name) ==>
      exists i :: 0 <= i < |attrs| && attrs[i] == Attr(name, AttrOf(attrs, name)) && forall j :: 0 <= j < i ==> attrs[j].name != name
  {
    if attrs != [] {
      if attrs[0].name != name {
        AttrOfIsTheFirst(attrs[1..], name);
        if Names(attrs, name) {
          var k :| 0 <= k < |attrs| && attrs[k].name == name;
          assert attrs[1..][k - 1].name == name;
          var i :| 0 <= i < |attrs[1..]| && attrs[1..][i] == Attr(name, AttrOf(attrs[1..], name)) && forall j :: 0 <= j < i ==> attrs[1..][j].name != name;
          assert attrs[i + 1] == attrs[1..][i];
          assert forall j :: 0 < j < i + 1 ==> attrs[j] == attrs[1..][j - 1];
        } else {
          assert forall i :: 0 <= i < |attrs[1..]| ==> attrs[1..][i] == attrs[i + 1];
        }
      } else {
        assert attrs[0] == Attr(name, AttrOf(attrs, name));
      }
    }
  }

  lemma {:induction false} AttrOfConcat(a: seq<Attr>, b: seq<Attr>, name: string)
    ensures AttrOf(a + b, name) == if Names(a, name) then AttrOf(a, name) else AttrOf(b, name)
  {
    if a == [] {
      assert a + b == b;
    } else {
      assert (a + b)[1..] == a[1..] + b;
      AttrOfConcat(a[1..], b, name);
      assert forall i :: 0 < i < |a| ==> a[i] == a[1..][i - 1];
      assert Names(a, name) <==> a[0].name == name || Names(a[1..], name);
    }
  }

  function ReportDate(r: Row): string {
    AttrOf(r.attrs, "reportDate")
  }

  function WithoutDashes(v: string): string {
    if v == "" then "" else (if v[0] == '-' then [] else [v[0]]) + WithoutDashes(v[1..])
  }

  predicate IsDigit(c: char) {
    '0' <= c <= '9'
  }

  /** A date without its dashes, when what is left reads as an eight-character number; `None` otherwise. */
  function FlexDay(v: string): Option<string> {
    var d := WithoutDashes(v);
    if |d| == 8 && (IsDigit(d[0]) || d[0] == '+') && (forall i :: 1 <= i < 8 ==> IsDigit(d[i])) then Some(d) else None
  }

  lemma {:induction false} NoDashes(v: string)
    requires '-' !in v
    ensures WithoutDashes(v) == v
  {
    if v != "" {
      NoDashes(v[1..]);
    }
  }

  lemma {:induction false} WithoutDashesOfConcat(a: string, b: string)
    ensures WithoutDashes(a + b) == WithoutDashes(a) + WithoutDashes(b)
  {
    if a == "" {
      assert a + b == b;
    } else {
      assert (a + b)[1..] == a[1..] + b;
      WithoutDashesOfConcat(a[1..], b);
    }
  }

  /** A dash goes, wherever it stands, and text without one stays as it is. */
  lemma OnlyDashesGo(a: string, b: string)
    ensures WithoutDashes(a + "-" + b) == WithoutDashes(a + b)
    ensures '-' !in a ==> WithoutDashes(a) == a
  {
    WithoutDashesOfConcat(a + "-", b);
    WithoutDashesOfConcat(a, "-");
    WithoutDashesOfConcat(a, b);
    assert WithoutDashes("-") == "" by {
      assert "-"[1..] == "";
    }
    if '-' !in a {
      NoDashes(a);
    }
  }

  ghost predicate AllDigits(v: string) {
    forall i :: 0 <= i < |v| ==> '0' <= v[i] <= '9'
  }

  /** A day is what is left without dashes, when that is eight characters, digits but for a leading plus. */
  lemma FlexDayIff(v: string, d: string)
    ensures FlexDay(v) == Some(d) <==> d == WithoutDashes(v) && |d| == 8 && (AllDigits(d) || (d[0] == '+' && AllDigits(d[1..])))
  {
    var w := WithoutDashes(v);
    if |w| == 8 {
      assert forall i :: 1 <= i < 8 ==> w[1..][i - 1] == w[i];
      assert AllDigits(w[1..]) <==> forall i :: 1 <= i < 8 ==> IsDigit(w[i]);
    }
  }

  lemma DashedIs(year: string, month: string, day: string)
    ensures WithoutDashes(year + "-" + month + "-" + day) == WithoutDashes(year + month + day)
  {
    OnlyDashesGo(year + "-" + month, day);
    OnlyDashesGo(year, month + day);
    assert year + "-" + month + day == year + "-" + (month + day) && year + month + day == year + (month + day);
  }

  /** Eight digits are a day, and so are they with dashes between year, month and day. */
  lemma FlexDayReads(year: string, month: string, day: string, d: string)
    requires d == year + month + day && |d| == 8 && AllDigits(d)
    ensures FlexDay(d) == FlexDay(year + "-" + month + "-" + day) == Some(d)
  {
    NoDashes(d);
    DashedIs(year, month, day);
    FlexDayIff(d, d);
    FlexDayIff(year + "-" + month + "-" + day, d);
  }
}
