/** Ordering one account's per-day Flex statements. */
module FlexDays {
  import opened Collections
  import opened Decimals
  import opened FlexStatement
  import opened Sorting
  import opened Wrappers

  datatype Dated = Dated(stmt: Statement, first: string, last: string)

  datatype MergeError = NoReadablePeriod | PeriodsOverlap

  // ---------------------------------------------------------------- ordering the days

  function Period(s: Statement): Option<Dated> {
    var first, last := FlexDay(AttrOf(s.attrs, "fromDate")), FlexDay(AttrOf(s.attrs, "toDate"));
    if first.Some? && last.Some? && StringLe(first.value, last.value) then Some(Dated(s, first.value, last.value)) else None
  }

  function Periods(blocks: seq<Statement>): Option<seq<Dated>> {
    if blocks == [] then Some([])
    else
      var rest, d := Periods(blocks[..|blocks| - 1]), Period(blocks[|blocks| - 1]);
      if rest.Some? && d.Some? then Some(rest.value + [d.value]) else None
  }

  predicate StartsNoLater(a: Dated, b: Dated) {
    StringLe(a.first, b.first)
  }

  /** The number some digits spell. */
  ghost function Number(d: string): nat
    requires AllDigits(d)
  {
    if d == "" then 0 else (d[0] - '0') as int * Pow10(|d| - 1) + Number(d[1..])
  }

  lemma LeadingDigitDecides(p: nat, x: nat, y: nat, low: nat, high: nat)
    requires x < y && low < p
    ensures x * p + low < y * p + high
  {
    assert (x + 1) * p <= y * p;
    assert (x + 1) * p == x * p + p;
  }

  lemma {:induction false} NumberIsBelow(d: string)
    requires AllDigits(d)
    ensures Number(d) < Pow10(|d|)
  {
    if d != "" {
      NumberIsBelow(d[1..]);
      LeadingDigitDecides(Pow10(|d| - 1), (d[0] - '0') as int, 10, Number(d[1..]), 0);
    }
  }

  /** Days of eight digits are ordered as the numbers they spell, so as the calendar orders them. */
  lemma {:induction false} DaysCompareAsNumbers(a: string, b: string)
    requires |a| == |b| && AllDigits(a) && AllDigits(b)
    ensures StringLe(a, b) <==> Number(a) <= Number(b)
    ensures StringLt(a, b) <==> Number(a) < Number(b)
  {
    if a != "" {
      var x, y := (a[0] - '0') as int, (b[0] - '0') as int;
      DaysCompareAsNumbers(a[1..], b[1..]);
      NumberIsBelow(a[1..]);
      NumberIsBelow(b[1..]);
      if x < y {
        LeadingDigitDecides(Pow10(|a| - 1), x, y, Number(a[1..]), Number(b[1..]));
      } else if y < x {
        LeadingDigitDecides(Pow10(|a| - 1), y, x, Number(b[1..]), Number(a[1..]));
      } else {
        assert a == [a[0]] + a[1..] && b == [b[0]] + b[1..];
      }
    }
  }

  /** One period ends before the other starts. */
  predicate Before(a: Dated, b: Dated) {
    StringLt(a.last, b.first)
  }

  ghost predicate Consecutive(days: seq<Dated>) {
    forall i, j :: 0 <= i < j < |days| ==> Before(days[i], days[j])
  }

  ghost predicate Disjoint(days: seq<Dated>) {
    forall i, j :: 0 <= i < j < |days| ==> Before(days[i], days[j]) || Before(days[j], days[i])
  }

  ghost predicate GoodPeriods(days: seq<Dated>) {
    forall i :: 0 <= i < |days| ==> StringLe(days[i].first, days[i].last)
  }

  lemma StartsOrder()
    ensures TotalPreorder(StartsNoLater)
  {
    StringOrder();
    forall a, b
      ensures StartsNoLater(a, b) || StartsNoLater(b, a)
    {
      assert StringLe(a.first, b.first) || StringLe(b.first, a.first);
    }
    forall a, b, c | StartsNoLater(a, b) && StartsNoLater(b, c)
      ensures StartsNoLater(a, c)
    {
      StringLeTransitive(a.first, b.first, c.first);
    }
  }

  lemma LtLeTrans(a: string, b: string, c: string)
    requires (StringLt(a, b) && StringLe(b, c)) || (StringLe(a, b) && StringLt(b, c))
    ensures StringLt(a, c)
  {
    StringLeTransitive(a, b, c);
    StringLeTotal(a, b);
    StringLeTotal(b, c);
  }

  /** Neighbours that follow each other make every pair follow. */
  lemma {:induction false} NeighboursSuffice(days: seq<Dated>, i: nat, j: nat)
    requires GoodPeriods(days) && i < j < |days|
    requires forall k :: 0 < k < |days| ==> Before(days[k - 1], days[k])
    ensures Before(days[i], days[j])
    decreases j
  {
    if i < j - 1 {
      NeighboursSuffice(days, i, j - 1);
      LtLeTrans(days[i].last, days[j - 1].first, days[j - 1].last);
      LtLeTrans(days[i].last, days[j - 1].last, days[j].first);
    }
  }

  /** Disjointness is a matter of the statements, not of their order. */
  lemma DisjointIsOrderFree(a: seq<Dated>, b: seq<Dated>)
    requires multiset(a) == multiset(b) && Disjoint(a)
    ensures Disjoint(b)
  {
    forall i, j | 0 <= i < j < |b|
      ensures Before(b[i], b[j]) || Before(b[j], b[i])
    {
      PairIn(b, i, j);
      PairFrom(a, b[i], b[j]);
    }
  }

  lemma PairIn(b: seq<Dated>, i: nat, j: nat)
    requires i < j < |b|
    ensures multiset{b[i], b[j]} <= multiset(b)
  {
    assert b == b[..i] + [b[i]] + b[i + 1..j] + [b[j]] + b[j + 1..];
  }

  lemma PairFrom(a: seq<Dated>, x: Dated, y: Dated)
    requires multiset{x, y} <= multiset(a) && Disjoint(a)
    ensures Before(x, y) || Before(y, x)
  {
    assert x in multiset(a);
    var i :| 0 <= i < |a| && a[i] == x;
    var j := OtherPlace(a, i, y);
    assert Before(a[i], a[j]) || Before(a[j], a[i]);
  }

  /** A second element of a sequence stands elsewhere. */
  lemma OtherPlace(a: seq<Dated>, i: nat, y: Dated) returns (j: nat)
    requires i < |a| && multiset{a[i], y} <= multiset(a)
    ensures j < |a| && j != i && a[j] == y
  {
    var rest := a[..i] + a[i + 1..];
    RemoveAt(a, i);
    assert y in multiset(rest);
    var k :| 0 <= k < |rest| && rest[k] == y;
    j := if k < i then k else k + 1;
  }

  function Days(blocks: seq<Statement>): Result<seq<Dated>, MergeError> {
    var periods := Periods(blocks);
    if periods.None? then Failure(NoReadablePeriod)
    else
      var days := SortBy(periods.value, StartsNoLater);
      if forall k :: 0 < k < |days| ==> Before(days[k - 1], days[k]) then Success(days) else Failure(PeriodsOverlap)
  }

  lemma {:induction false} PeriodsAreGood(blocks: seq<Statement>)
    requires Periods(blocks).Some?
    ensures GoodPeriods(Periods(blocks).value)
  {
    if blocks != [] {
      PeriodsAreGood(blocks[..|blocks| - 1]);
    }
  }

  lemma GoodIsOrderFree(a: seq<Dated>, b: seq<Dated>)
    requires multiset(a) == multiset(b) && GoodPeriods(a)
    ensures GoodPeriods(b)
  {
    forall i | 0 <= i < |b|
      ensures StringLe(b[i].first, b[i].last)
    {
      assert b[i] in multiset(a);
    }
  }

  /** A sorted arrangement of disjoint periods follows day on day. */
  lemma SortedDisjointFollow(days: seq<Dated>, i: nat, j: nat)
    requires GoodPeriods(days) && SortedBy(days, StartsNoLater) && Disjoint(days) && i < j < |days|
    ensures Before(days[i], days[j])
  {
    assert StartsNoLater(days[i], days[j]);
    StringLeTotal(days[i].first, days[j].first);
    if Before(days[j], days[i]) {
      LtLeTrans(days[j].first, days[j].last, days[i].first);
    }
  }

  /** Sorted periods follow neighbour on neighbour exactly when no two of them meet. */
  lemma FollowIffDisjoint(periods: seq<Dated>, days: seq<Dated>)
    requires GoodPeriods(days) && SortedBy(days, StartsNoLater) && multiset(days) == multiset(periods)
    ensures (forall k :: 0 < k < |days| ==> Before(days[k - 1], days[k])) <==> Disjoint(periods)
    ensures Disjoint(periods) ==> Consecutive(days)
  {
    if Disjoint(periods) {
      DisjointIsOrderFree(periods, days);
      forall i, j | 0 <= i < j < |days|
        ensures Before(days[i], days[j])
      {
        SortedDisjointFollow(days, i, j);
      }
    }
    if forall k :: 0 < k < |days| ==> Before(days[k - 1], days[k]) {
      forall i, j | 0 <= i < j < |days|
        ensures Before(days[i], days[j])
      {
        NeighboursSuffice(days, i, j);
      }
      assert Disjoint(days);
      DisjointIsOrderFree(days, periods);
    }
  }

  /** The split is read exactly when every statement has a readable period and no two periods meet; the days
      then follow one another, each statement once. */
  lemma DaysSucceedIffDisjoint(blocks: seq<Statement>)
    ensures Days(blocks).Success? <==> Periods(blocks).Some? && Disjoint(Periods(blocks).value)
    ensures Days(blocks).Success? ==>
      Consecutive(Days(blocks).value) && multiset(Days(blocks).value) == multiset(Periods(blocks).value)
  {
    if Periods(blocks).Some? {
      var periods := Periods(blocks).value;
      var days := SortBy(periods, StartsNoLater);
      assert SortedBy(days, StartsNoLater) by {
        StartsOrder();
        SortByIsSorted(periods, StartsNoLater);
      }
      SortByIsPermutation(periods, StartsNoLater);
      PeriodsAreGood(blocks);
      GoodIsOrderFree(periods, days);
      FollowIffDisjoint(periods, days);
    }
  }

  ghost function OfStatement(d: Dated, blocks: seq<Statement>): nat {
    if Period(d.stmt) == Some(d) then multiset(blocks)[d.stmt] else 0
  }

  lemma StatementsOneMore(d: Dated, blocks: seq<Statement>, last: Statement)
    requires Period(last).Some?
    ensures OfStatement(d, blocks + [last]) == OfStatement(d, blocks) + if Period(last) == Some(d) then 1 else 0
  {
    assert multiset(blocks + [last]) == multiset(blocks) + multiset{last};
    PeriodNamesItsStatement(last);
  }

  lemma PeriodNamesItsStatement(s: Statement)
    ensures Period(s).Some? ==> Period(s).value.stmt == s
  {
  }

  lemma {:induction false} PeriodsCount(blocks: seq<Statement>, d: Dated)
    requires Periods(blocks).Some?
    ensures multiset(Periods(blocks).value)[d] == OfStatement(d, blocks)
  {
    if blocks != [] {
      var n := |blocks| - 1;
      PeriodsCount(blocks[..n], d);
      StatementsOneMore(d, blocks[..n], blocks[n]);
      assert blocks == blocks[..n] + [blocks[n]];
      assert multiset(Periods(blocks).value) == multiset(Periods(blocks[..n]).value) + multiset{Period(blocks[n]).value};
    }
  }

  predicate AllReadable(blocks: seq<Statement>) {
    forall s :: s in blocks ==> Period(s).Some?
  }

  lemma ReadableByParts(blocks: seq<Statement>, last: Statement)
    ensures AllReadable(blocks + [last]) <==> AllReadable(blocks) && Period(last).Some?
  {
    assert forall s :: s in blocks + [last] <==> s in blocks || s == last;
  }

  lemma {:induction false} PeriodsReadable(blocks: seq<Statement>)
    ensures Periods(blocks).Some? <==> AllReadable(blocks)
  {
    if blocks != [] {
      var n := |blocks| - 1;
      PeriodsReadable(blocks[..n]);
      ReadableByParts(blocks[..n], blocks[n]);
      assert blocks == blocks[..n] + [blocks[n]];
    }
  }

  lemma {:induction false} PeriodsName(blocks: seq<Statement>, d: Dated)
    requires Periods(blocks).Some? && d in Periods(blocks).value
    ensures Period(d.stmt) == Some(d)
  {
    var n := |blocks| - 1;
    if d in Periods(blocks[..n]).value {
      PeriodsName(blocks[..n], d);
    }
  }

  /** A day is dated by its own statement: from its fromDate to its toDate, each eight characters. */
  lemma DaysAreTheirOwn(blocks: seq<Statement>, d: Dated)
    requires Days(blocks).Success? && d in Days(blocks).value
    ensures FlexDay(AttrOf(d.stmt.attrs, "fromDate")) == Some(d.first) && FlexDay(AttrOf(d.stmt.attrs, "toDate")) == Some(d.last)
    ensures StringLe(d.first, d.last) && |d.first| == 8 && |d.last| == 8
  {
    DaysSucceedIffDisjoint(blocks);
    assert d in multiset(Days(blocks).value);
    assert d in Periods(blocks).value;
    PeriodsName(blocks, d);
  }

  /** The order the statements arrived in changes neither the days nor the refusal. */
  lemma DaysAreOrderFree(a: seq<Statement>, b: seq<Statement>)
    requires multiset(a) == multiset(b)
    ensures Days(a) == Days(b)
  {
    PeriodsReadable(a);
    PeriodsReadable(b);
    forall s
      ensures s in a <==> s in b
    {
      assert s in multiset(a) <==> s in multiset(b);
    }
    if Periods(a).Some? {
      var pa, pb := Periods(a).value, Periods(b).value;
      forall d
        ensures multiset(pa)[d] == multiset(pb)[d]
      {
        PeriodsCount(a, d);
        PeriodsCount(b, d);
      }
      assert multiset(pa) == multiset(pb);
      DaysSucceedIffDisjoint(a);
      DaysSucceedIffDisjoint(b);
      if Disjoint(pa) {
        DisjointIsOrderFree(pa, pb);
        PeriodsAreGood(a);
        GoodIsOrderFree(pa, Days(a).value);
        ConsecutiveIsUnique(Days(a).value, Days(b).value);
      } else if Disjoint(pb) {
        DisjointIsOrderFree(pb, pa);
      }
    }
  }

  lemma ConsecutiveIsSorted(days: seq<Dated>)
    requires Consecutive(days) && GoodPeriods(days)
    ensures SortedBy(days, StartsNoLater)
    ensures forall x, y :: x in days && y in days && StartsNoLater(x, y) && StartsNoLater(y, x) ==> x == y
  {
    forall i, j | 0 <= i < j < |days|
      ensures StringLt(days[i].first, days[j].first)
    {
      LtLeTrans(days[i].first, days[i].last, days[j].first);
    }
    forall x, y | x in days && y in days && StartsNoLater(x, y) && StartsNoLater(y, x)
      ensures x == y
    {
      StringLeTotal(x.first, y.first);
      var i :| 0 <= i < |days| && days[i] == x;
      var j :| 0 <= j < |days| && days[j] == y;
      assert i == j || StringLt(x.first, y.first) || StringLt(y.first, x.first);
    }
  }

  lemma ConsecutiveIsUnique(a: seq<Dated>, b: seq<Dated>)
    requires Consecutive(a) && Consecutive(b) && multiset(a) == multiset(b) && GoodPeriods(a)
    ensures a == b
  {
    GoodIsOrderFree(a, b);
    ConsecutiveIsSorted(a);
    ConsecutiveIsSorted(b);
    SortedIsUnique(a, b, StartsNoLater);
  }

  /** Computes the days of a split, or its refusal. */
  method ConsecutiveDays(blocks: seq<Statement>) returns (r: Result<seq<Dated>, MergeError>)
    ensures r == Days(blocks)
  {
    var days: seq<Dated> := [];
    for i := 0 to |blocks|
      invariant Periods(blocks[..i]) == Some(days)
    {
      assert blocks[..i + 1][..i] == blocks[..i];
      var d := Period(blocks[i]);
      if d.None? {
        PeriodsReadable(blocks);
        return Failure(NoReadablePeriod);
      }
      days := days + [d.value];
    }
    assert blocks[..|blocks|] == blocks;
    days := SortBy(days, StartsNoLater);
    var n := 1;
    while n < |days|
      invariant 1 <= n && forall k :: 0 < k < n && k < |days| ==> Before(days[k - 1], days[k])
    {
      if !Before(days[n - 1], days[n]) {
        return Failure(PeriodsOverlap);
      }
      n := n + 1;
    }
    return Success(days);
  }
}
