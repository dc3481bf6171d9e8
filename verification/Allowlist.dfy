/** The signed allowlist: its canonical form, as the signer and the verifier build it, and its upkeep. */
module Allowlist {
  import opened Collections
  import opened Sorting
  import opened Wrappers

  datatype Entry = Entry(measurement: string, tag: string, addedAt: int)

  datatype Payload = Payload(version: int, issuedAt: int, entries: seq<Entry>)

  // ---------------------------------------------------------------- normalised measurements

  predicate IsSpace(c: char) {
    c == ' ' || c == '\t' || c == '\n' || c == '\r' || c == '\U{0B}' || c == '\U{0C}'
  }

  function TrimLeft(s: string): string {
    if s != "" && IsSpace(s[0]) then TrimLeft(s[1..]) else s
  }

  function TrimRight(s: string): string {
    if s != "" && IsSpace(s[|s| - 1]) then TrimRight(s[..|s| - 1]) else s
  }

  function LowerChar(c: char): char {
    if 'A' <= c <= 'Z' then c + ('a' - 'A') else c
  }

  function Lower(s: string): (r: string)
    ensures |r| == |s|
  {
    if s == "" then "" else [LowerChar(s[0])] + Lower(s[1..])
  }

  function Normal(measurement: string): string {
    Lower(TrimRight(TrimLeft(measurement)))
  }

  predicate IsHexDigit(c: char) {
    '0' <= c <= '9' || 'a' <= c <= 'f' || 'A' <= c <= 'F'
  }

  predicate IsHex(s: string) {
    |s| % 2 == 0 && forall i :: 0 <= i < |s| ==> IsHexDigit(s[i])
  }

  function NormalEntry(e: Entry): Entry {
    e.(measurement := Normal(e.measurement))
  }

  function NormalEntries(entries: seq<Entry>): (r: seq<Entry>)
    ensures |r| == |entries| && forall i :: 0 <= i < |r| ==> r[i] == NormalEntry(entries[i])
  {
    MapSeq(entries, NormalEntry)
  }

  /** Text of nothing but spaces, tabs and line breaks. */
  ghost predicate Blank(s: string) {
    forall i :: 0 <= i < |s| ==> s[i] in {' ', '\t', '\n', '\r', 11 as char, 12 as char}
  }

  /** The same text in small letters. */
  ghost predicate InSmallLetters(s: string, small: string) {
    |s| == |small| && forall i :: 0 <= i < |s| ==>
      if 'A' <= s[i] <= 'Z' then small[i] as int == s[i] as int + 32 else small[i] == s[i]
  }

  lemma {:induction false} LowerIs(s: string)
    ensures InSmallLetters(s, Lower(s))
  {
    if s != "" {
      LowerIs(s[1..]);
      assert forall i :: 0 < i < |s| ==> s[i] == s[1..][i - 1] && Lower(s)[i] == Lower(s[1..])[i - 1];
    }
  }

  lemma {:induction false} TrimLeftIs(s: string) returns (pre: string)
    ensures s == pre + TrimLeft(s) && Blank(pre) && (TrimLeft(s) == "" || !Blank([TrimLeft(s)[0]]))
  {
    pre := "";
    if s != "" && IsSpace(s[0]) {
      var rest := TrimLeftIs(s[1..]);
      pre := [s[0]] + rest;
      assert s == [s[0]] + s[1..];
    } else if s != "" {
      assert [s[0]][0] == s[0];
    }
  }

  lemma {:induction false} TrimRightIs(s: string) returns (post: string)
    ensures s == TrimRight(s) + post && Blank(post) && (TrimRight(s) == "" || !Blank([TrimRight(s)[|TrimRight(s)| - 1]]))
    ensures TrimRight(s) != "" ==> TrimRight(s)[0] == s[0]
  {
    post := "";
    if s != "" && IsSpace(s[|s| - 1]) {
      var rest := TrimRightIs(s[..|s| - 1]);
      post := rest + [s[|s| - 1]];
      assert s == s[..|s| - 1] + [s[|s| - 1]];
    } else if s != "" {
      assert [s[|s| - 1]][0] == s[|s| - 1];
    }
  }

  /** A measurement is normalised to its text between the outer blanks, in small letters. */
  lemma NormalIs(measurement: string) returns (pre: string, core: string, post: string)
    ensures measurement == pre + core + post && Blank(pre) && Blank(post) && InSmallLetters(core, Normal(measurement))
    ensures core == "" || (!Blank([core[0]]) && !Blank([core[|core| - 1]]))
  {
    pre := TrimLeftIs(measurement);
    post := TrimRightIs(TrimLeft(measurement));
    core := TrimRight(TrimLeft(measurement));
    LowerIs(core);
    assert measurement == pre + (core + post);
  }

  /** Hex text is whole bytes, two of the twenty-two digits each. */
  lemma HexIff(s: string)
    ensures IsHex(s) <==>
      |s| == 2 * (|s| / 2) && forall i :: 0 <= i < |s| ==> s[i] in "0123456789abcdefABCDEF"
  {
    forall c: char
      ensures IsHexDigit(c) <==> c in "0123456789abcdefABCDEF"
    {
      HexDigitIff(c);
    }
  }

  lemma HexDigitIff(c: char)
    ensures IsHexDigit(c) <==> c in "0123456789abcdefABCDEF"
  {
    var digits := "0123456789abcdefABCDEF";
    if '0' <= c <= '9' {
      assert digits[c as int - '0' as int] == c;
    } else if 'a' <= c <= 'f' {
      assert digits[10 + c as int - 'a' as int] == c;
    } else if 'A' <= c <= 'F' {
      assert digits[16 + c as int - 'A' as int] == c;
    }
  }

  // ---------------------------------------------------------------- the insertion sort

  predicate ByMeasurement(a: Entry, b: Entry) {
    StringLe(a.measurement, b.measurement)
  }

  lemma MeasurementOrder()
    ensures TotalPreorder(ByMeasurement)
  {
    forall a, b
      ensures ByMeasurement(a, b) || ByMeasurement(b, a)
    {
      StringLeTotal(a.measurement, b.measurement);
    }
    forall a, b, c | ByMeasurement(a, b) && ByMeasurement(b, c)
      ensures ByMeasurement(a, c)
    {
      StringLeTransitive(a.measurement, b.measurement, c.measurement);
    }
  }

  /** Insertion lands at the one place with nothing later before it and only later elements after it. */
  lemma {:induction false} InsertionPlace(s: seq<Entry>, x: Entry, j: nat)
    requires j <= |s|
    requires forall k :: j <= k < |s| ==> !ByMeasurement(s[k], x)
    requires j > 0 ==> ByMeasurement(s[j - 1], x)
    ensures InsertBy(s, ByMeasurement, x) == s[..j] + [x] + s[j..]
  {
    if j < |s| {
      var n := |s| - 1;
      InsertionPlace(s[..n], x, j);
      assert s[..j] + [x] + s[j..] == s[..n][..j] + [x] + s[..n][j..] + [s[n]];
    }
  }

  /** Sorts in place by measurement: adjacent swaps carry each element down to its place. */
  method SortAllowlistEntries(a: array<Entry>)
    modifies a
    ensures a[..] == SortBy(old(a[..]), ByMeasurement)
  {
    ghost var was := a[..];
    var i := 1;
    assert a.Length > 0 ==> was[..1][..0] == [] && a[..1] == SortBy(was[..1], ByMeasurement);
    while i < a.Length
      invariant 1 <= i && (i <= a.Length || a.Length == 0)
      invariant i <= a.Length ==> a[..i] == SortBy(was[..i], ByMeasurement) && a[i..] == was[i..]
    {
      assert a[i] == a[i..][0] == was[i];
      assert a[i + 1..] == a[i..][1..] == was[i..][1..] == was[i + 1..];
      SinkInto(a, i);
      assert was[..i + 1][..i] == was[..i];
      i := i + 1;
    }
    if a.Length == 0 {
      assert was == [] && a[..] == [];
    } else {
      assert was[..a.Length] == was && a[..a.Length] == a[..];
    }
  }

  /** The array part while x is being carried down from i: everything x has passed moved up by one. */
  ghost predicate Carrying(part: seq<Entry>, s: seq<Entry>, x: Entry, j: nat) {
    j <= |s| && part == s[..j] + [x] + s[j..]
  }

  method SinkInto(a: array<Entry>, i: nat)
    requires i < a.Length
    modifies a
    ensures a[..i + 1] == InsertBy(old(a[..i]), ByMeasurement, old(a[i]))
    ensures a[i + 1..] == old(a[i + 1..])
  {
    ghost var s, x := a[..i], a[i];
    var j := i;
    assert Carrying(a[..i + 1], s, x, i);
    while j > 0 && !StringLe(a[j - 1].measurement, a[j].measurement)
      invariant 0 <= j <= i && Carrying(a[..i + 1], s, x, j)
      invariant forall k :: j <= k < i ==> !ByMeasurement(s[k], x)
      invariant a[i + 1..] == old(a[i + 1..])
    {
      ghost var part := a[..i + 1];
      assert part[j - 1] == s[j - 1] && part[j] == x;
      a[j - 1], a[j] := a[j], a[j - 1];
      assert a[..i + 1] == part[j - 1 := x][j := s[j - 1]];
      SwapCarries(part, s, x, j);
      j := j - 1;
    }
    if j > 0 {
      assert a[..i + 1][j - 1] == s[j - 1] && a[..i + 1][j] == x;
    }
    InsertionPlace(s, x, j);
  }

  lemma SwapCarries(part: seq<Entry>, s: seq<Entry>, x: Entry, j: nat)
    requires j > 0 && Carrying(part, s, x, j)
    ensures Carrying(part[j - 1 := x][j := s[j - 1]], s, x, j - 1)
  {
  }

  // ---------------------------------------------------------------- the canonical form

  function Canonical(p: Payload): Payload {
    Payload(p.version, p.issuedAt, SortBy(NormalEntries(p.entries), ByMeasurement))
  }

  /** Every entry is kept, once each time, with its tag and time, under its normalised measurement, and these are
      in order; the version and the time of issue stay. */
  lemma CanonicalIs(p: Payload)
    ensures Canonical(p).version == p.version && Canonical(p).issuedAt == p.issuedAt
    ensures multiset(Canonical(p).entries)
      == multiset(MapSeq(p.entries, (e: Entry) => Entry(Normal(e.measurement), e.tag, e.addedAt)))
    ensures var es := Canonical(p).entries; forall i, j :: 0 <= i < j < |es| ==> StringLe(es[i].measurement, es[j].measurement)
  {
    var ns := NormalEntries(p.entries);
    assert ns == MapSeq(p.entries, (e: Entry) => Entry(Normal(e.measurement), e.tag, e.addedAt));
    MeasurementOrder();
    SortByIsSorted(ns, ByMeasurement);
    SortByIsPermutation(ns, ByMeasurement);
    var es := Canonical(p).entries;
    assert forall i, j :: 0 <= i < j < |es| ==> ByMeasurement(es[i], es[j]);
  }

  /** release-sign: normalises and sorts a copy. */
  method SignerCanonical(p: Payload) returns (r: Payload)
    ensures r == Canonical(p)
  {
    var a := new Entry[|p.entries|](i requires 0 <= i < |p.entries| => p.entries[i]);
    for i := 0 to a.Length
      invariant forall k :: 0 <= k < i ==> a[k] == NormalEntry(p.entries[k])
      invariant forall k :: i <= k < a.Length ==> a[k] == p.entries[k]
    {
      a[i] := NormalEntry(a[i]);
    }
    assert a[..] == NormalEntries(p.entries);
    SortAllowlistEntries(a);
    r := Payload(p.version, p.issuedAt, a[..]);
  }

  /** bootstrap: the same, refusing a measurement that is not hex. */
  method VerifierCanonical(p: Payload) returns (r: Result<Payload, nat>)
    ensures r.Success? <==> forall e :: e in p.entries ==> IsHex(Normal(e.measurement))
    ensures r.Success? ==> r.value == Canonical(p)
    ensures r.Failure? ==> r.error < |p.entries| && !IsHex(Normal(p.entries[r.error].measurement))
  {
    var a := new Entry[|p.entries|](i requires 0 <= i < |p.entries| => p.entries[i]);
    for i := 0 to a.Length
      invariant forall k :: 0 <= k < i ==> a[k] == NormalEntry(p.entries[k]) && IsHex(Normal(p.entries[k].measurement))
      invariant forall k :: i <= k < a.Length ==> a[k] == p.entries[k]
    {
      a[i] := NormalEntry(a[i]);
      if !IsHex(a[i].measurement) {
        return Failure(i);
      }
    }
    assert a[..] == NormalEntries(p.entries);
    SortAllowlistEntries(a);
    r := Success(Payload(p.version, p.issuedAt, a[..]));
  }

  /** Entries that share a normalised measurement are the same once normalised. */
  ghost predicate NoConflicts(entries: seq<Entry>) {
    var ns := NormalEntries(entries);
    forall i, j :: 0 <= i < j < |ns| && ns[i].measurement == ns[j].measurement ==> ns[i] == ns[j]
  }

  ghost predicate OneEach(ns: seq<Entry>) {
    forall x, y :: x in ns && y in ns && x.measurement == y.measurement ==> x == y
  }

  lemma NoConflictsMeansOneEach(entries: seq<Entry>)
    ensures NoConflicts(entries) <==> OneEach(NormalEntries(entries))
  {
    var ns := NormalEntries(entries);
    if NoConflicts(entries) {
      forall x, y | x in ns && y in ns && x.measurement == y.measurement
        ensures x == y
      {
        var i :| 0 <= i < |ns| && ns[i] == x;
        var j :| 0 <= j < |ns| && ns[j] == y;
      }
    }
  }

  lemma SortedOneEachIsUnique(ns: seq<Entry>, a: seq<Entry>, b: seq<Entry>)
    requires OneEach(ns) && multiset(a) == multiset(ns) == multiset(b)
    requires SortedBy(a, ByMeasurement) && SortedBy(b, ByMeasurement)
    ensures a == b
  {
    forall x, y | x in a && y in a && ByMeasurement(x, y) && ByMeasurement(y, x)
      ensures x == y
    {
      StringLeTotal(x.measurement, y.measurement);
      assert x in multiset(ns) && y in multiset(ns);
    }
    SortedIsUnique(a, b, ByMeasurement);
  }

  /** Without conflicts every order of the entries has the same canonical form. */
  lemma OrderDoesNotMatter(entries: seq<Entry>, others: seq<Entry>, version: int, issuedAt: int)
    requires multiset(entries) == multiset(others) && NoConflicts(entries)
    ensures Canonical(Payload(version, issuedAt, entries)) == Canonical(Payload(version, issuedAt, others))
  {
    var ns, ms := NormalEntries(entries), NormalEntries(others);
    MapSeqPermutes(entries, others, NormalEntry);
    NoConflictsMeansOneEach(entries);
    MeasurementOrder();
    SortByIsSorted(ns, ByMeasurement);
    SortByIsSorted(ms, ByMeasurement);
    SortByIsPermutation(ns, ByMeasurement);
    SortByIsPermutation(ms, ByMeasurement);
    SortedOneEachIsUnique(ns, SortBy(ns, ByMeasurement), SortBy(ms, ByMeasurement));
  }

  lemma {:induction false} FilterHead(ns: seq<Entry>, p: Entry -> bool, i: nat)
    requires i < |ns| && p(ns[i]) && forall k :: 0 <= k < i ==> !p(ns[k])
    ensures Filter(ns, p) != [] && Filter(ns, p)[0] == ns[i]
  {
    var n := |ns| - 1;
    if i < n {
      FilterHead(ns[..n], p, i);
    } else {
      FilterNone(ns[..n], p);
    }
  }

  lemma {:induction false} FilterNone(ns: seq<Entry>, p: Entry -> bool)
    requires forall k :: 0 <= k < |ns| ==> !p(ns[k])
    ensures Filter(ns, p) == []
  {
    if ns != [] {
      FilterNone(ns[..|ns| - 1], p);
    }
  }

  /** The sort keeps the order of entries under one measurement, so their first one stays first. */
  lemma DifferentHeadsSortApart(ns: seq<Entry>, ms: seq<Entry>, m: string, i: nat, j: nat)
    requires i < |ns| && ns[i].measurement == m && forall k :: 0 <= k < i ==> ns[k].measurement != m
    requires j < |ms| && ms[j].measurement == m && forall k :: 0 <= k < j ==> ms[k].measurement != m
    requires ns[i] != ms[j]
    ensures SortBy(ns, ByMeasurement) != SortBy(ms, ByMeasurement)
  {
    var same := (e: Entry) => e.measurement == m;
    FilterHead(ns, same, i);
    FilterHead(ms, same, j);
    StringLeTotal(m, m);
    SortByIsStable(ns, ByMeasurement, same);
    SortByIsStable(ms, ByMeasurement, same);
  }

  /** Two different entries under one measurement: listed the other way round, the canonical form differs. */
  lemma ConflictDependsOnOrder(entries: seq<Entry>, version: int, issuedAt: int) returns (others: seq<Entry>)
    requires !NoConflicts(entries)
    ensures multiset(others) == multiset(entries)
    ensures Canonical(Payload(version, issuedAt, entries)) != Canonical(Payload(version, issuedAt, others))
  {
    var ns := NormalEntries(entries);
    var i, j :| 0 <= i < j < |ns| && ns[i].measurement == ns[j].measurement && ns[i] != ns[j];
    var head := FirstSame(ns, ns[i].measurement, i);
    others := ToFront(entries, if ns[j] != ns[head] then j else i);
    DifferentHeadsSortApart(ns, NormalEntries(others), ns[i].measurement, head, 0);
  }

  lemma ToFront(entries: seq<Entry>, k: nat) returns (others: seq<Entry>)
    requires k < |entries|
    ensures multiset(others) == multiset(entries) && others != [] && others[0] == entries[k]
  {
    var rest := entries[..k] + entries[k + 1..];
    others := [entries[k]] + rest;
    RemoveAt(entries, k);
    assert multiset(others) == multiset{entries[k]} + multiset(rest);
  }

  ghost predicate OrderFree(entries: seq<Entry>, version: int, issuedAt: int) {
    forall others: seq<Entry> :: multiset(others) == multiset(entries) ==>
      Canonical(Payload(version, issuedAt, others)) == Canonical(Payload(version, issuedAt, entries))
  }

  /** The canonical form is independent of the order of the entries exactly when no two different entries
      share a normalised measurement. */
  lemma OrderFreeIffNoConflicts(entries: seq<Entry>, version: int, issuedAt: int)
    ensures OrderFree(entries, version, issuedAt) <==> NoConflicts(entries)
  {
    if NoConflicts(entries) {
      forall others: seq<Entry> | multiset(others) == multiset(entries)
        ensures Canonical(Payload(version, issuedAt, others)) == Canonical(Payload(version, issuedAt, entries))
      {
        OrderDoesNotMatter(entries, others, version, issuedAt);
      }
    } else {
      var others := ConflictDependsOnOrder(entries, version, issuedAt);
      assert !OrderFree(entries, version, issuedAt);
    }
  }

  /** The first entry under a measurement. */
  lemma FirstSame(ns: seq<Entry>, m: string, i: nat) returns (head: nat)
    requires i < |ns| && ns[i].measurement == m
    ensures head <= i && ns[head].measurement == m && forall k :: 0 <= k < head ==> ns[k].measurement != m
  {
    head := 0;
    while ns[head].measurement != m
      decreases i - head
      invariant head <= i && forall k :: 0 <= k < head ==> ns[k].measurement != m
    {
      head := head + 1;
    }
  }

  // ---------------------------------------------------------------- lookups

  function IsAllowedSpec(p: Payload, measurement: string): bool {
    Normal(measurement) != "" && exists e :: e in p.entries && Normal(e.measurement) == Normal(measurement)
  }

  method IsAllowed(p: Payload, measurement: string) returns (allowed: bool)
    ensures allowed == IsAllowedSpec(p, measurement)
  {
    var target := Normal(measurement);
    if target == "" {
      return false;
    }
    for i := 0 to |p.entries|
      invariant forall k :: 0 <= k < i ==> Normal(p.entries[k].measurement) != target
    {
      if Normal(p.entries[i].measurement) == target {
        return true;
      }
    }
    return false;
  }

  lemma {:induction false} LowerTwice(s: string)
    ensures Lower(Lower(s)) == Lower(s)
  {
    if s != "" {
      LowerTwice(s[1..]);
      assert Lower(s)[1..] == Lower(s[1..]);
    }
  }

  lemma {:induction false} LowerAt(s: string, i: nat)
    requires i < |s|
    ensures Lower(s)[i] == LowerChar(s[i])
  {
    if i > 0 {
      LowerAt(s[1..], i - 1);
    }
  }

  /** No space stands at either end. */
  predicate Trimmed(s: string) {
    s == "" || (!IsSpace(s[0]) && !IsSpace(s[|s| - 1]))
  }

  lemma {:induction false} TrimRightEnds(s: string)
    requires s == "" || !IsSpace(s[0])
    ensures Trimmed(TrimRight(s))
  {
    if s != "" && IsSpace(s[|s| - 1]) {
      TrimRightEnds(s[..|s| - 1]);
    }
  }

  lemma {:induction false} TrimLeftStarts(s: string)
    ensures TrimLeft(s) == "" || !IsSpace(TrimLeft(s)[0])
  {
    if s != "" && IsSpace(s[0]) {
      TrimLeftStarts(s[1..]);
    }
  }

  /** Normalising twice is normalising once. */
  lemma NormalTwice(measurement: string)
    ensures Normal(Normal(measurement)) == Normal(measurement)
  {
    var t := TrimRight(TrimLeft(measurement));
    TrimLeftStarts(measurement);
    TrimRightEnds(TrimLeft(measurement));
    var l := Lower(t);
    if t != "" {
      LowerAt(t, 0);
      LowerAt(t, |t| - 1);
    }
    assert Trimmed(l);
    assert TrimRight(TrimLeft(l)) == l;
    LowerTwice(t);
  }

  /** What is allowed does not change when the payload is put into canonical form. */
  lemma CanonicalAllowsTheSame(p: Payload, measurement: string)
    ensures IsAllowedSpec(Canonical(p), measurement) == IsAllowedSpec(p, measurement)
  {
    var ns := NormalEntries(p.entries);
    var c := Canonical(p).entries;
    SortByIsPermutation(ns, ByMeasurement);
    forall e | e in p.entries && Normal(e.measurement) == Normal(measurement)
      ensures NormalEntry(e) in c && Normal(NormalEntry(e).measurement) == Normal(measurement)
    {
      var i :| 0 <= i < |p.entries| && p.entries[i] == e;
      assert ns[i] in multiset(c);
      NormalTwice(e.measurement);
    }
    forall e | e in c && Normal(e.measurement) == Normal(measurement)
      ensures exists o :: o in p.entries && Normal(o.measurement) == Normal(measurement)
    {
      assert e in multiset(ns);
      var i :| 0 <= i < |ns| && ns[i] == e;
      NormalTwice(p.entries[i].measurement);
      assert p.entries[i] in p.entries;
    }
  }

  // ---------------------------------------------------------------- adding a release

  ghost predicate DistinctNormal(entries: seq<Entry>) {
    forall i, j :: 0 <= i < j < |entries| ==> Normal(entries[i].measurement) != Normal(entries[j].measurement)
  }

  /** Overwrites the entry of that measurement, or appends. */
  method UpsertEntry(entries: seq<Entry>, e: Entry) returns (r: seq<Entry>)
    ensures r == Upsert(entries, e)
  {
    for i := 0 to |entries|
      invariant forall k :: 0 <= k < i ==> entries[k].measurement != e.measurement
    {
      if entries[i].measurement == e.measurement {
        UpsertAt(entries, e, i);
        return entries[i := e];
      }
    }
    UpsertAppends(entries, e);
    return entries + [e];
  }

  function Upsert(entries: seq<Entry>, e: Entry): seq<Entry> {
    if entries == [] then [e]
    else if entries[0].measurement == e.measurement then [e] + entries[1..]
    else [entries[0]] + Upsert(entries[1..], e)
  }

  lemma {:induction false} UpsertAt(entries: seq<Entry>, e: Entry, i: nat)
    requires i < |entries| && entries[i].measurement == e.measurement
    requires forall k :: 0 <= k < i ==> entries[k].measurement != e.measurement
    ensures Upsert(entries, e) == entries[i := e]
  {
    if i > 0 {
      UpsertAt(entries[1..], e, i - 1);
      assert [entries[0]] + entries[1..][i - 1 := e] == entries[i := e];
    } else {
      assert [e] + entries[1..] == entries[0 := e];
    }
  }

  lemma {:induction false} UpsertAppends(entries: seq<Entry>, e: Entry)
    requires forall k :: 0 <= k < |entries| ==> entries[k].measurement != e.measurement
    ensures Upsert(entries, e) == entries + [e]
  {
    if entries != [] {
      UpsertAppends(entries[1..], e);
      assert [entries[0]] + (entries[1..] + [e]) == entries + [e];
    }
  }

  /** Adding a release keeps the normalised measurements distinct exactly when an entry already under its
      normalised measurement is written that way. */
  lemma UpsertKeepsDistinctIff(entries: seq<Entry>, e: Entry)
    requires DistinctNormal(entries) && Normal(e.measurement) == e.measurement
    ensures DistinctNormal(Upsert(entries, e)) <==>
      forall x :: x in entries && Normal(x.measurement) == e.measurement ==> x.measurement == e.measurement
  {
    if i :| 0 <= i < |entries| && entries[i].measurement == e.measurement {
      var j := FirstSame(entries, e.measurement, i);
      UpsertAt(entries, e, j);
      forall k | 0 <= k < |entries| && k != j
        ensures Normal(entries[k].measurement) != e.measurement
      {
        assert Normal(entries[j].measurement) == e.measurement;
      }
    } else {
      UpsertAppends(entries, e);
      var r := entries + [e];
      if x :| x in entries && Normal(x.measurement) == e.measurement {
        var k :| 0 <= k < |entries| && entries[k] == x;
        assert r[k] == x && r[|entries|] == e;
        assert !DistinctNormal(r);
      }
    }
  }

  /** The entries after a sequence of signing runs, each adding one release under its normalised measurement. */
  function Releases(added: seq<Entry>): seq<Entry> {
    if added == [] then [] else Upsert(Releases(added[..|added| - 1]), NormalEntry(added[|added| - 1]))
  }

  lemma {:induction false} UpsertMembers(entries: seq<Entry>, e: Entry, x: Entry)
    requires x in Upsert(entries, e)
    ensures x in entries || x == e
  {
    if entries != [] && entries[0].measurement != e.measurement && x != entries[0] {
      UpsertMembers(entries[1..], e, x);
    }
  }

  /** However many releases are signed, the list never names one measurement twice, so its canonical form does
      not depend on its order. */
  lemma {:induction false} ReleasesStayDistinct(added: seq<Entry>)
    ensures DistinctNormal(Releases(added)) && NoConflicts(Releases(added))
    ensures forall x :: x in Releases(added) ==> Normal(x.measurement) == x.measurement
  {
    if added != [] {
      var n := |added| - 1;
      var before, e := Releases(added[..n]), NormalEntry(added[n]);
      ReleasesStayDistinct(added[..n]);
      NormalTwice(added[n].measurement);
      UpsertKeepsDistinctIff(before, e);
      forall x | x in Releases(added)
        ensures Normal(x.measurement) == x.measurement
      {
        UpsertMembers(before, e, x);
      }
    }
  }
}
