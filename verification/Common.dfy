/** Durations and instants are integers counting nanoseconds, as in Go's `time` package. */
module Clock {
  const MILLISECOND: int := 1_000_000
  const SECOND: int := 1000 * MILLISECOND
  const MINUTE: int := 60 * SECOND
  const HOUR: int := 60 * MINUTE
  const DAY: int := 24 * HOUR

  /** Milliseconds since the epoch, rounded towards the past. */
  function UnixMilli(t: int): int {
    t / MILLISECOND
  }

  /** The UTC day an instant falls on, counted from the epoch. */
  function UtcDay(t: int): int {
    t / DAY
  }

  /** A millisecond is a million nanoseconds, and a week of them is a week. */
  lemma UnixMilliIs(t: int)
    ensures UnixMilli(t) * 1_000_000 <= t < (UnixMilli(t) + 1) * 1_000_000
  {
  }

  lemma WeekInMillis(a: int, b: int)
    requires a <= b <= a + 7 * DAY
    ensures UnixMilli(a) <= UnixMilli(b) <= UnixMilli(a) + 604_800_000
  {
  }

  /** Days are of 86400 seconds, counted from the epoch. */
  lemma UtcDayIs(t: int)
    ensures UtcDay(t) * 86_400_000_000_000 <= t < (UtcDay(t) + 1) * 86_400_000_000_000
    ensures NextUtcDay(t) == (UtcDay(t) + 1) * 86_400_000_000_000
  {
  }

  lemma UnixMilliMonotone(a: int, b: int)
    requires a <= b
    ensures UnixMilli(a) <= UnixMilli(b)
  {
  }

  /** Midnight that ends the UTC day of `now`. */
  function NextUtcDay(now: int): int {
    (UtcDay(now) + 1) * DAY
  }

  lemma DaysAdvance(a: int, b: int)
    requires a <= b
    ensures UtcDay(a) <= UtcDay(b) && NextUtcDay(a) <= NextUtcDay(b)
    ensures a < NextUtcDay(a)
    ensures b < NextUtcDay(a) <==> UtcDay(a) == UtcDay(b)
  {
  }
}

module Wrappers {
  datatype Option<+T> = None | Some(value: T)

  datatype Result<+T, +E> = Success(value: T) | Failure(error: E)

  datatype Outcome<+E> = Pass | Fail(error: E)
}

module Collections {
  ghost predicate Distinct<T>(s: seq<T>) {
    forall i, j :: 0 <= i < j < |s| ==> s[i] != s[j]
  }

  /** Distinct elements of a set number at most its size, and exactly its size when they are all of it. */
  lemma DistinctSubsetBound<T>(s: seq<T>, t: set<T>)
    requires Distinct(s)
    requires forall x :: x in s ==> x in t
    ensures |s| <= |t|
    ensures (set x | x in s) == t ==> |s| == |t|
    decreases |s|
  {
    if s == [] {
      assert (set x | x in s) == {};
    } else {
      var n := |s| - 1;
      var rest := s[..n];
      assert forall x :: x in s ==> x in rest || x == s[n];
      DistinctSubsetBound(rest, t - {s[n]});
      if (set x | x in s) == t {
        assert (set x | x in rest) == t - {s[n]};
      }
    }
  }

  function MapSeq<T, U>(s: seq<T>, f: T -> U): (r: seq<U>)
    ensures |r| == |s| && forall i :: 0 <= i < |s| ==> r[i] == f(s[i])
  {
    seq(|s|, i requires 0 <= i < |s| => f(s[i]))
  }

  lemma RemoveAt<T>(s: seq<T>, k: nat)
    requires k < |s|
    ensures multiset(s) == multiset(s[..k] + s[k + 1..]) + multiset{s[k]}
  {
    assert s == s[..k] + [s[k]] + s[k + 1..];
  }

  lemma MapSeqOfConcat<T, U>(a: seq<T>, b: seq<T>, f: T -> U)
    ensures MapSeq(a + b, f) == MapSeq(a, f) + MapSeq(b, f)
  {
    var ab, m := MapSeq(a + b, f), MapSeq(a, f) + MapSeq(b, f);
    forall i | 0 <= i < |ab|
      ensures ab[i] == m[i]
    {
      assert (a + b)[i] == if i < |a| then a[i] else b[i - |a|];
    }
  }

  /** Taking one element out takes its image out. */
  lemma MapSeqWithout<T, U>(s: seq<T>, f: T -> U, k: nat)
    requires k < |s|
    ensures multiset(MapSeq(s, f)) == multiset(MapSeq(s[..k] + s[k + 1..], f)) + multiset{f(s[k])}
  {
    assert s == s[..k] + ([s[k]] + s[k + 1..]);
    MapSeqOfConcat(s[..k], [s[k]] + s[k + 1..], f);
    MapSeqOfConcat([s[k]], s[k + 1..], f);
    MapSeqOfConcat(s[..k], s[k + 1..], f);
    assert MapSeq([s[k]], f) == [f(s[k])];
  }

  lemma RemoveSame<T>(a: seq<T>, i: nat, b: seq<T>, k: nat)
    requires multiset(a) == multiset(b) && i < |a| && k < |b| && a[i] == b[k]
    ensures multiset(a[..i] + a[i + 1..]) == multiset(b[..k] + b[k + 1..])
  {
    RemoveAt(a, i);
    RemoveAt(b, k);
    assert multiset(a[..i] + a[i + 1..]) == multiset(a) - multiset{a[i]};
  }

  /** Mapping a rearrangement rearranges the mapping. */
  lemma {:induction false} MapSeqPermutes<T, U>(a: seq<T>, b: seq<T>, f: T -> U)
    requires multiset(a) == multiset(b)
    ensures multiset(MapSeq(a, f)) == multiset(MapSeq(b, f))
    decreases |a|
  {
    if a == [] {
      assert |multiset(b)| == 0;
    } else {
      assert a[0] in multiset(b);
      var k :| 0 <= k < |b| && b[k] == a[0];
      var restA, restB := a[..0] + a[1..], b[..k] + b[k + 1..];
      RemoveSame(a, 0, b, k);
      MapSeqPermutes(restA, restB, f);
      MapSeqWithout(a, f, 0);
      MapSeqWithout(b, f, k);
    }
  }
}

/** Terminating decimals: the amounts that text can carry exactly. */
module Decimals {
  function Pow10(k: nat): (p: nat)
    ensures p >= 1
  {
    if k == 0 then 1 else 10 * Pow10(k - 1)
  }

  lemma {:induction false} Pow10OfSum(j: nat, k: nat)
    ensures Pow10(j + k) == Pow10(j) * Pow10(k)
  {
    if j > 0 {
      Pow10OfSum(j - 1, k);
    }
  }

  /** The amount of n units of the k-th decimal. */
  function Decimal(n: int, k: nat): real {
    n as real / Pow10(k) as real
  }

  ghost predicate IsDecimal(x: real) {
    exists n: int, k: nat :: x == Decimal(n, k)
  }

  lemma AddFractions(n: real, p: real, m: real, q: real)
    requires p > 0.0 && q > 0.0
    ensures p * q > 0.0 && n / p + m / q == (n * q + m * p) / (p * q)
  {
    var a, b := n / p, m / q;
    assert n * q == a * (p * q) && m * p == b * (p * q);
    assert n * q + m * p == (a + b) * (p * q);
  }

  lemma ProductAsReal(x: int, y: int)
    ensures (x * y) as real == x as real * y as real
  {
  }

  lemma AddRatios(n: int, p: nat, m: int, q: nat, top: int, bottom: nat)
    requires p > 0 && q > 0 && bottom > 0 && top == n * q + m * p && bottom == p * q
    ensures n as real / p as real + m as real / q as real == top as real / bottom as real
  {
    AddFractions(n as real, p as real, m as real, q as real);
    ProductAsReal(p, q);
    ProductAsReal(n, q);
    ProductAsReal(m, p);
  }

  lemma SumIsDecimal(x: real, y: real)
    requires IsDecimal(x) && IsDecimal(y)
    ensures IsDecimal(x + y)
  {
    var n: int, j: nat :| x == Decimal(n, j);
    var m: int, k: nat :| y == Decimal(m, k);
    Pow10OfSum(j, k);
    var top := n * Pow10(k) + m * Pow10(j);
    AddRatios(n, Pow10(j), m, Pow10(k), top, Pow10(j + k));
    assert x + y == Decimal(top, j + k);
  }

  lemma NegatedFraction(n: real, p: real)
    requires p > 0.0
    ensures -(n / p) == -n / p
  {
    assert (-(n / p)) * p == -n;
  }

  lemma NegationIsDecimal(x: real)
    requires IsDecimal(x)
    ensures IsDecimal(-x)
  {
    var n: int, k: nat :| x == Decimal(n, k);
    NegatedFraction(n as real, Pow10(k) as real);
    assert -x == Decimal(-n, k);
  }

  lemma ZeroIsDecimal()
    ensures IsDecimal(0.0)
  {
    assert Decimal(0, 0) == 0.0;
  }
}

module Valuation {
  /** How a venue's coins are valued: the coins worth a dollar each, and the price of the others, not
      positive for a coin without a ticker. */
  datatype Prices = Prices(stable: string -> bool, price: string -> real)

  /** Dollars for a quantity: one for one, by its price, or nothing where there is no price. */
  function UsdValue(p: Prices, coin: string, qty: real): real {
    if p.stable(coin) then qty else if p.price(coin) > 0.0 then qty * p.price(coin) else 0.0
  }

  /** A stable coin is worth its quantity; a priced one moves with its quantity, doubling with it and keeping its
      sign; an unpriced one is worth nothing. */
  lemma UsdValueScales(p: Prices, coin: string, qty: real)
    ensures p.stable(coin) ==> UsdValue(p, coin, qty) == qty
    ensures !p.stable(coin) && p.price(coin) > 0.0 ==> UsdValue(p, coin, 1.0) == p.price(coin)
    ensures UsdValue(p, coin, qty) == qty * UsdValue(p, coin, 1.0)
    ensures !p.stable(coin) && p.price(coin) <= 0.0 ==> UsdValue(p, coin, qty) == 0.0
    ensures 0.0 <= UsdValue(p, coin, 1.0) && (Unpriced(p, coin) <==> UsdValue(p, coin, 1.0) == 0.0)
  {
  }

  predicate Unpriced(p: Prices, coin: string) {
    !p.stable(coin) && p.price(coin) <= 0.0
  }
}
