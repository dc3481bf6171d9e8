/** IG's display amounts: locale-dependent strings read back as the amounts they print. */
module IGDecimal {
  import opened Decimals
  import opened Wrappers

  predicate IsDigit(c: char) {
    '0' <= c <= '9'
  }

  predicate IsSeparator(c: char) {
    c == '.' || c == ','
  }

  predicate IsSign(c: char) {
    c == '-' || c == '+'
  }

  lemma CharacterClasses(c: char)
    ensures IsDigit(c) <==> c in "0123456789"
    ensures IsSeparator(c) <==> c in ".,"
    ensures IsSign(c) <==> c in "+-"
  {
    if IsDigit(c) {
      assert "0123456789"[c as int - '0' as int] == c;
    }
    assert ".,"[0] == '.' && ".,"[1] == ',' && "+-"[0] == '+' && "+-"[1] == '-';
  }

  // ---------------------------------------------------------------- reading

  /** The digits and separators of a text. */
  function Body(s: string): string {
    if s == "" then ""
    else
      var before, c := Body(s[..|s| - 1]), s[|s| - 1];
      if IsDigit(c) || IsSeparator(c) then before + [c] else before
  }

  /** The first sign that stands before every digit and separator. */
  function SignOf(s: string): Option<char> {
    if s == "" then None
    else
      var before, c := SignOf(s[..|s| - 1]), s[|s| - 1];
      if IsSign(c) && before.None? && Body(s[..|s| - 1]) == "" then Some(c) else before
  }

  function LastIndex(s: string, c: char): (at: int)
    ensures -1 <= at < |s|
    ensures at >= 0 ==> s[at] == c
    ensures forall j :: at < j < |s| ==> s[j] != c
  {
    if s == "" then -1
    else if s[|s| - 1] == c then |s| - 1
    else LastIndex(s[..|s| - 1], c)
  }

  /** Which separator is the decimal point, if any. */
  function DecimalSeparator(digits: string): Option<char> {
    var lastDot, lastComma := LastIndex(digits, '.'), LastIndex(digits, ',');
    if lastDot >= 0 && lastComma >= 0 then Some(if lastDot > lastComma then '.' else ',')
    else if lastDot < 0 && lastComma < 0 then None
    else
      var (sep, at) := if lastDot >= 0 then ('.', lastDot) else (',', lastComma);
      if multiset(digits)[sep] > 1 then None
      else if |digits| - at - 1 == 3 then None
      else Some(sep)
  }

  function Without(s: string, c: char): string {
    if s == "" then ""
    else if s[|s| - 1] == c then Without(s[..|s| - 1], c)
    else Without(s[..|s| - 1], c) + [s[|s| - 1]]
  }

  function ReplaceFirst(s: string, c: char, d: char): string {
    if s == "" then ""
    else if s[0] == c then [d] + s[1..]
    else [s[0]] + ReplaceFirst(s[1..], c, d)
  }

  /** The text with grouping gone and the decimal point written as a dot. */
  function Normal(digits: string): string {
    match DecimalSeparator(digits)
    case None => Without(Without(digits, '.'), ',')
    case Some(sep) =>
      if sep == ',' then ReplaceFirst(Without(digits, '.'), ',', '.') else Without(digits, ',')
  }

  predicate AllDigits(s: string) {
    forall i :: 0 <= i < |s| ==> IsDigit(s[i])
  }

  function DigitsValue(s: string): nat
    requires AllDigits(s)
  {
    if s == "" then 0 else 10 * DigitsValue(s[..|s| - 1]) + (s[|s| - 1] as int - '0' as int)
  }

  /** The number a plain decimal text denotes: digits with at most one dot among them. */
  function PlainDecimal(sign: Option<char>, text: string): Option<real> {
    var point := LastIndex(text, '.');
    if point < 0 then Scaled(sign, text, 0) else Scaled(sign, text[..point] + text[point + 1..], |text| - point - 1)
  }

  /** A run of digits with so many of them after the point. */
  function Scaled(sign: Option<char>, digits: string, decimals: nat): Option<real> {
    if digits == "" || !AllDigits(digits) then None
    else Some(Signed(sign, DigitsValue(digits) as real / Pow10(decimals) as real))
  }

  function Signed(sign: Option<char>, x: real): real {
    if sign == Some('-') then -x else x
  }

  /** A minus turns an amount, a plus or no sign leaves it. */
  lemma SignedIs(x: real)
    ensures Signed(Some('-'), x) + x == 0.0 && Signed(Some('+'), x) == Signed(None, x) == x
  {
  }

  predicate HasDigit(s: string) {
    exists i :: 0 <= i < |s| && IsDigit(s[i])
  }

  function ParsedDecimal(s: string): Option<real> {
    if !HasDigit(Body(s)) then None else PlainDecimal(SignOf(s), Normal(Body(s)))
  }

  method ParseIGDecimal(s: string) returns (r: Option<real>)
    ensures r == ParsedDecimal(s)
  {
    var sign: Option<char>, digits := None, "";
    for i := 0 to |s|
      invariant sign == SignOf(s[..i]) && digits == Body(s[..i])
    {
      assert s[..i + 1][..i] == s[..i];
      if IsDigit(s[i]) || IsSeparator(s[i]) {
        digits := digits + [s[i]];
      } else if IsSign(s[i]) && sign.None? && digits == "" {
        sign := Some(s[i]);
      }
    }
    assert s[..|s|] == s;
    var i := 0;
    while i < |digits| && !IsDigit(digits[i])
      invariant 0 <= i <= |digits| && forall j :: 0 <= j < i ==> !IsDigit(digits[j])
    {
      i := i + 1;
    }
    if i == |digits| {
      return None;
    }
    return PlainDecimal(sign, Normal(digits));
  }

  // ---------------------------------------------------------------- printing

  datatype Style = Style(point: char, grouped: bool)

  predicate ValidStyle(style: Style) {
    IsSeparator(style.point)
  }

  /** The separator that is not the decimal point. */
  function GroupMark(style: Style): char {
    if style.point == '.' then ',' else '.'
  }

  function Digits(n: nat): (s: string)
    ensures s != "" && AllDigits(s) && DigitsValue(s) == n
  {
    var d := [('0' as int + n % 10) as char];
    if n < 10 then d else Digits(n / 10) + d
  }

  /** A number without its k lowest digits. */
  function High(n: nat, k: nat): nat {
    if k == 0 then n else High(n / 10, k - 1)
  }

  /** The k lowest digits of a number. */
  function Padded(n: nat, k: nat): (s: string)
    ensures |s| == k && AllDigits(s)
  {
    if k == 0 then "" else Padded(n / 10, k - 1) + [('0' as int + n % 10) as char]
  }

  /** Threes from the right, with a mark between. */
  function Grouped(digits: string, mark: char): string {
    if |digits| <= 3 then digits
    else Grouped(digits[..|digits| - 3], mark) + [mark] + digits[|digits| - 3..]
  }

  function Whole(n: nat, style: Style): string {
    if style.grouped then Grouped(Digits(n), GroupMark(style)) else Digits(n)
  }

  /** The amount n / 10^k, written with k decimals. */
  function Number(n: nat, k: nat, style: Style): string {
    Whole(High(n, k), style) + if k == 0 then "" else [style.point] + Padded(n, k)
  }

  /** Text that the reader skips: a currency sign or a space. */
  predicate Decoration(s: string) {
    forall i :: 0 <= i < |s| ==> !IsDigit(s[i]) && !IsSeparator(s[i]) && !IsSign(s[i])
  }

  function SignText(sign: Option<char>): string {
    if sign.Some? then [sign.value] else ""
  }

  /** A printed amount, with currency text before or after the sign and after the number. */
  function Printed(before: string, sign: Option<char>, between: string, number: string, after: string): string {
    before + SignText(sign) + between + number + after
  }

  // ---------------------------------------------------------------- the decoration is skipped

  lemma {:induction false} BodyOfConcat(a: string, b: string)
    ensures Body(a + b) == Body(a) + Body(b)
  {
    if b == "" {
      assert a + b == a;
    } else {
      assert (a + b)[..|a + b| - 1] == a + b[..|b| - 1];
      BodyOfConcat(a, b[..|b| - 1]);
    }
  }

  predicate Numeric(s: string) {
    forall i :: 0 <= i < |s| ==> IsDigit(s[i]) || IsSeparator(s[i])
  }

  lemma {:induction false} BodyOfNumeric(s: string)
    requires Numeric(s)
    ensures Body(s) == s
  {
    if s != "" {
      BodyOfNumeric(s[..|s| - 1]);
    }
  }

  lemma {:induction false} BodyOfDecoration(s: string)
    requires Decoration(s)
    ensures Body(s) == ""
  {
    if s != "" {
      BodyOfDecoration(s[..|s| - 1]);
    }
  }

  /** Text without a sign changes nothing about the sign before it. */
  lemma {:induction false} SignOfSignless(a: string, b: string)
    requires forall i :: 0 <= i < |b| ==> !IsSign(b[i])
    ensures SignOf(a + b) == SignOf(a)
  {
    if b == "" {
      assert a + b == a;
    } else {
      assert (a + b)[..|a + b| - 1] == a + b[..|b| - 1];
      SignOfSignless(a, b[..|b| - 1]);
    }
  }

  lemma DecorationAdded(a: string, d: string)
    requires Decoration(d)
    ensures Body(a + d) == Body(a) && SignOf(a + d) == SignOf(a)
  {
    BodyOfConcat(a, d);
    BodyOfDecoration(d);
    SignOfSignless(a, d);
  }

  lemma SignAdded(a: string, sign: Option<char>)
    requires Body(a) == "" && SignOf(a) == None && (sign.Some? ==> IsSign(sign.value))
    ensures Body(a + SignText(sign)) == "" && SignOf(a + SignText(sign)) == sign
  {
    if sign.Some? {
      OneMoreChar(a, sign.value);
    } else {
      assert a + "" == a;
    }
  }

  lemma OneMoreChar(a: string, c: char)
    ensures Body(a + [c]) == if IsDigit(c) || IsSeparator(c) then Body(a) + [c] else Body(a)
    ensures SignOf(a + [c]) == if IsSign(c) && SignOf(a).None? && Body(a) == "" then Some(c) else SignOf(a)
  {
    assert (a + [c])[..|a|] == a;
  }

  lemma NumericIsNoSign(c: char)
    ensures IsDigit(c) || IsSeparator(c) ==> !IsSign(c)
  {
  }

  lemma NumberAdded(a: string, number: string)
    requires Body(a) == "" && Numeric(number)
    ensures Body(a + number) == number && SignOf(a + number) == SignOf(a)
  {
    BodyOfConcat(a, number);
    BodyOfNumeric(number);
    forall i | 0 <= i < |number|
      ensures !IsSign(number[i])
    {
      NumericIsNoSign(number[i]);
    }
    SignOfSignless(a, number);
  }

  /** Reading a printed amount comes to reading its number under its sign. */
  lemma DecorationIsSkipped(before: string, sign: Option<char>, between: string, number: string, after: string)
    requires Decoration(before) && Decoration(between) && Decoration(after) && Numeric(number)
    requires sign.Some? ==> IsSign(sign.value)
    ensures Body(Printed(before, sign, between, number, after)) == number
    ensures SignOf(Printed(before, sign, between, number, after)) == sign
  {
    assert Body("") == "" && SignOf("") == None;
    DecorationAdded("", before);
    assert "" + before == before;
    assert Body(before) == "" && SignOf(before) == None;
    SignAdded(before, sign);
    var head := before + SignText(sign);
    DecorationAdded(head, between);
    NumberAdded(head + between, number);
    DecorationAdded(head + between + number, after);
  }

  // ---------------------------------------------------------------- digits and values

  /** Each digit counts for itself, and ten times more with every digit behind it. */
  lemma DigitIs(d: nat, s: string)
    requires d < 10 && AllDigits(s)
    ensures AllDigits(s + ["0123456789"[d]]) && DigitsValue(s + ["0123456789"[d]]) == 10 * DigitsValue(s) + d
  {
    assert "0123456789"[d] as int == '0' as int + d;
    OneMoreDigit(s, "0123456789"[d]);
  }

  lemma TenTimes(x: nat, p: nat)
    ensures x * (10 * p) == 10 * (x * p)
  {
  }

  lemma {:induction false} DigitsValueOfConcat(a: string, b: string)
    requires AllDigits(a) && AllDigits(b)
    ensures AllDigits(a + b) && DigitsValue(a + b) == DigitsValue(a) * Pow10(|b|) + DigitsValue(b)
  {
    if b == "" {
      assert a + b == a;
    } else {
      var c, d := b[..|b| - 1], b[|b| - 1];
      DigitsValueOfConcat(a, c);
      OneMoreDigit(a + c, d);
      OneMoreDigit(c, d);
      assert c + [d] == b && a + c + [d] == a + b;
      TenTimes(DigitsValue(a), Pow10(|c|));
    }
  }

  lemma OneMoreDigit(s: string, d: char)
    requires AllDigits(s) && IsDigit(d)
    ensures AllDigits(s + [d]) && DigitsValue(s + [d]) == 10 * DigitsValue(s) + (d as int - '0' as int)
  {
    assert (s + [d])[..|s|] == s;
  }

  lemma {:induction false} PaddedValue(n: nat, k: nat)
    ensures High(n, k) * Pow10(k) + DigitsValue(Padded(n, k)) == n
  {
    if k > 0 {
      PaddedValue(n / 10, k - 1);
      OneMoreDigit(Padded(n / 10, k - 1), ('0' as int + n % 10) as char);
      TenTimes(High(n, k), Pow10(k - 1));
    }
  }

  /** The whole and decimal digits together spell the amount's units. */
  lemma UnitsValue(n: nat, k: nat)
    ensures AllDigits(Digits(High(n, k)) + Padded(n, k))
    ensures DigitsValue(Digits(High(n, k)) + Padded(n, k)) == n
  {
    DigitsValueOfConcat(Digits(High(n, k)), Padded(n, k));
    PaddedValue(n, k);
  }

  // ---------------------------------------------------------------- grouping

  lemma {:induction false} WithoutConcat(a: string, b: string, c: char)
    ensures Without(a + b, c) == Without(a, c) + Without(b, c)
  {
    if b == "" {
      assert a + b == a;
    } else {
      assert (a + b)[..|a + b| - 1] == a + b[..|b| - 1];
      WithoutConcat(a, b[..|b| - 1], c);
    }
  }

  lemma {:induction false} WithoutAbsent(s: string, c: char)
    requires c !in s
    ensures Without(s, c) == s
  {
    if s != "" {
      WithoutAbsent(s[..|s| - 1], c);
    }
  }

  lemma WithoutMark(a: string, mark: char, b: string)
    requires mark !in b
    ensures Without(a + [mark] + b, mark) == Without(a, mark) + b
  {
    WithoutConcat(a + [mark], b, mark);
    WithoutAbsent(b, mark);
    assert (a + [mark])[..|a|] == a;
  }

  predicate DigitsOr(s: string, mark: char) {
    forall i :: 0 <= i < |s| ==> IsDigit(s[i]) || s[i] == mark
  }

  /** Taking the marks out undoes grouping. */
  lemma {:induction false} GroupedReads(digits: string, mark: char)
    requires AllDigits(digits) && IsSeparator(mark)
    ensures Without(Grouped(digits, mark), mark) == digits
  {
    if |digits| <= 3 {
      WithoutAbsent(digits, mark);
    } else {
      var head, tail := digits[..|digits| - 3], digits[|digits| - 3..];
      PartsAreDigits(digits, |digits| - 3, mark);
      GroupedReads(head, mark);
      WithoutMark(Grouped(head, mark), mark, tail);
    }
  }

  lemma PartsAreDigits(digits: string, k: nat, mark: char)
    requires AllDigits(digits) && k <= |digits| && IsSeparator(mark)
    ensures AllDigits(digits[..k]) && mark !in digits[k..] && digits[..k] + digits[k..] == digits
  {
  }

  lemma {:induction false} GroupedChars(digits: string, mark: char)
    requires AllDigits(digits)
    ensures DigitsOr(Grouped(digits, mark), mark)
  {
    if |digits| > 3 {
      GroupedChars(digits[..|digits| - 3], mark);
    }
  }

  /** Three digits follow the last mark, if there is one, and there is one as soon as there are four digits. */
  lemma LastMark(digits: string, mark: char)
    requires AllDigits(digits) && IsSeparator(mark)
    ensures if |digits| <= 3 then mark !in Grouped(digits, mark) else LastIndex(Grouped(digits, mark), mark) == |Grouped(digits, mark)| - 4
  {
    if |digits| > 3 {
      var g, tail := Grouped(digits[..|digits| - 3], mark), digits[|digits| - 3..];
      var whole := g + [mark] + tail;
      assert Grouped(digits, mark) == whole;
      assert whole[|g|] == mark;
      assert forall j :: |g| < j < |whole| ==> whole[j] == tail[j - |g| - 1];
      LastIndexIs(whole, mark, |g|);
    }
  }

  lemma LastIndexIs(s: string, c: char, at: int)
    requires 0 <= at < |s| && s[at] == c
    requires forall j :: at < j < |s| ==> s[j] != c
    ensures LastIndex(s, c) == at
  {
  }

  /** The whole part of a number, and what the reader makes of it. */
  lemma WholeReads(n: nat, style: Style)
    requires ValidStyle(style)
    ensures var w, mark := Whole(n, style), GroupMark(style);
      && Without(w, mark) == Digits(n) && DigitsOr(w, mark) && style.point !in w
      && (mark in w <==> style.grouped && n >= 1000)
      && (mark in w ==> LastIndex(w, mark) == |w| - 4)
  {
    var w, mark := Whole(n, style), GroupMark(style);
    DigitsLength(n);
    if style.grouped {
      GroupedReads(Digits(n), mark);
      GroupedChars(Digits(n), mark);
      LastMark(Digits(n), mark);
    } else {
      WithoutAbsent(w, mark);
    }
  }

  lemma DigitsLength(n: nat)
    ensures |Digits(n)| > 3 <==> n >= 1000
  {
    OneDigitMore(n);
    OneDigitMore(n / 10);
    OneDigitMore(n / 10 / 10);
  }

  lemma OneDigitMore(n: nat)
    ensures |Digits(n)| == if n < 10 then 1 else 1 + |Digits(n / 10)|
  {
  }

  // ---------------------------------------------------------------- the round trip

  /** A number whose last separator, at |w|, is a lone point or stands right of marks. */
  lemma SeparatorOf(w: string, point: char, mark: char, tail: string)
    requires IsSeparator(point) && IsSeparator(mark) && point != mark
    requires AllDigits(tail) && point !in w && DigitsOr(w, mark)
    ensures DecimalSeparator(w + [point] + tail) == if |tail| == 3 && mark !in w then None else Some(point)
  {
    var x := w + [point] + tail;
    assert x[|w|] == point;
    assert forall j :: |w| < j < |x| ==> x[j] == tail[j - |w| - 1];
    LastIndexIs(x, point, |w|);
    assert LastIndex(x, mark) < |w|;
    if mark in w {
      var i :| 0 <= i < |w| && w[i] == mark;
      assert x[i] == mark;
    } else {
      assert mark !in x;
      LonePoint(w, point, tail);
    }
  }

  lemma LonePoint(w: string, point: char, tail: string)
    requires point !in w && point !in tail
    ensures multiset(w + [point] + tail)[point] == 1
  {
    assert multiset(w)[point] == 0 && multiset(tail)[point] == 0;
  }

  /** Marks only, the last with three digits after it, are grouping. */
  lemma SeparatorOfWhole(w: string, mark: char)
    requires IsSeparator(mark) && DigitsOr(w, mark)
    requires mark in w ==> LastIndex(w, mark) == |w| - 4
    ensures DecimalSeparator(w) == None
  {
  }

  lemma {:induction false} ReplaceFirstAt(a: string, c: char, b: string, d: char)
    requires c !in a
    ensures ReplaceFirst(a + [c] + b, c, d) == a + [d] + b
  {
    if a == "" {
      assert a + [c] + b == [c] + b;
    } else {
      assert a + [c] + b == [a[0]] + (a[1..] + [c] + b);
      ReplaceFirstAt(a[1..], c, b, d);
    }
  }

  /** With a decimal point recognised, the normal text is the plain digits around a dot. */
  lemma NormalWithPoint(w: string, point: char, mark: char, tail: string)
    requires IsSeparator(point) && IsSeparator(mark) && point != mark
    requires AllDigits(tail) && point !in w && DigitsOr(w, mark)
    requires DecimalSeparator(w + [point] + tail) == Some(point)
    ensures Normal(w + [point] + tail) == Without(w, mark) + "." + tail
  {
    WithoutOther(w, point, tail, mark);
    if point == ',' {
      WithoutKeepsAbsent(w, mark, point);
      ReplaceFirstAt(Without(w, mark), ',', tail, '.');
    }
  }

  lemma WithoutOther(a: string, point: char, b: string, mark: char)
    requires point != mark && mark !in b
    ensures Without(a + [point] + b, mark) == Without(a, mark) + [point] + b
  {
    WithoutConcat(a + [point], b, mark);
    WithoutAbsent(b, mark);
    assert (a + [point])[..|a|] == a;
  }

  lemma {:induction false} WithoutKeepsAbsent(s: string, c: char, d: char)
    requires d !in s
    ensures d !in Without(s, c)
  {
    if s != "" {
      WithoutKeepsAbsent(s[..|s| - 1], c, d);
    }
  }

  /** With none recognised, it is all the digits. */
  lemma NormalWithoutPoint(w: string, point: char, mark: char, tail: string)
    requires IsSeparator(point) && IsSeparator(mark) && point != mark
    requires AllDigits(tail) && AllDigits(w)
    requires DecimalSeparator(w + [point] + tail) == None
    ensures Normal(w + [point] + tail) == w + tail
  {
    DropPoint(w, point, tail);
    if point == '.' {
      WithoutAbsent(w + tail, ',');
    } else {
      WithoutAbsent(w + [point] + tail, '.');
    }
  }

  lemma DropPoint(w: string, point: char, tail: string)
    requires IsSeparator(point) && AllDigits(tail) && AllDigits(w)
    ensures Without(w + [point] + tail, point) == w + tail
  {
    WithoutMark(w, point, tail);
    WithoutAbsent(w, point);
  }

  lemma NormalOfWhole(w: string, mark: char, digits: string)
    requires IsSeparator(mark) && DigitsOr(w, mark) && AllDigits(digits)
    requires DecimalSeparator(w) == None && Without(w, mark) == digits
    ensures Normal(w) == digits
  {
    if mark == ',' {
      WithoutAbsent(w, '.');
    } else {
      WithoutAbsent(digits, ',');
    }
  }

  lemma PlainPointed(sign: Option<char>, whole: string, fraction: string)
    requires AllDigits(fraction)
    ensures PlainDecimal(sign, whole + "." + fraction) == Scaled(sign, whole + fraction, |fraction|)
  {
    var text := whole + "." + fraction;
    assert text[|whole|] == '.';
    assert forall j :: |whole| < j < |text| ==> text[j] == fraction[j - |whole| - 1];
    LastIndexIs(text, '.', |whole|);
    assert text[..|whole|] == whole && text[|whole| + 1..] == fraction;
  }

  lemma PlainWhole(sign: Option<char>, digits: string)
    requires digits != "" && AllDigits(digits)
    ensures PlainDecimal(sign, digits) == Some(Signed(sign, DigitsValue(digits) as real))
  {
    assert LastIndex(digits, '.') < 0;
    OverOne(DigitsValue(digits));
    assert PlainDecimal(sign, digits) == Scaled(sign, digits, 0);
  }

  lemma OverOne(n: nat)
    ensures n as real / Pow10(0) as real == n as real
  {
    assert Pow10(0) == 1;
  }

  /** Three decimals behind no grouping mark: the one shape whose point is taken for a mark. */
  predicate LooksGrouped(n: nat, k: nat, style: Style) {
    k == 3 && !(style.grouped && n >= 1_000_000)
  }

  lemma ScaledUnits(sign: Option<char>, n: nat, k: nat)
    ensures Scaled(sign, Digits(High(n, k)) + Padded(n, k), k) == Some(Signed(sign, n as real / Pow10(k) as real))
  {
    UnitsValue(n, k);
    assert Digits(High(n, k)) + Padded(n, k) != "";
  }

  /** No decimals: marks, if any, are taken out again. */
  lemma WholeNumberReads(sign: Option<char>, n: nat, style: Style)
    requires ValidStyle(style)
    ensures PlainDecimal(sign, Normal(Number(n, 0, style))) == Some(Signed(sign, n as real))
  {
    var w, mark := Whole(n, style), GroupMark(style);
    WholeReads(n, style);
    assert Number(n, 0, style) == w;
    SeparatorOfWhole(w, mark);
    NormalOfWhole(w, mark, Digits(n));
    PlainWhole(sign, Digits(n));
  }

  /** A point that is recognised. */
  lemma PointedNumberReads(sign: Option<char>, n: nat, k: nat, style: Style)
    requires ValidStyle(style) && k > 0 && !LooksGrouped(n, k, style)
    ensures PlainDecimal(sign, Normal(Number(n, k, style))) == Some(Signed(sign, n as real / Pow10(k) as real))
  {
    var w, mark, ds, tail := Whole(High(n, k), style), GroupMark(style), Digits(High(n, k)), Padded(n, k);
    WholeReads(High(n, k), style);
    assert Number(n, k, style) == w + [style.point] + tail;
    if k == 3 {
      ThreeDecimals(n, k);
    }
    SeparatorOf(w, style.point, mark, tail);
    NormalWithPoint(w, style.point, mark, tail);
    PlainPointed(sign, ds, tail);
    ScaledUnits(sign, n, k);
  }

  /** A point that looks like a mark. */
  lemma GroupedLookReads(sign: Option<char>, n: nat, k: nat, style: Style)
    requires ValidStyle(style) && LooksGrouped(n, k, style)
    ensures PlainDecimal(sign, Normal(Number(n, k, style))) == Some(Signed(sign, n as real))
  {
    var w, mark, tail := Whole(High(n, k), style), GroupMark(style), Padded(n, k);
    WholeReads(High(n, k), style);
    assert Number(n, k, style) == w + [style.point] + tail;
    ThreeDecimals(n, k);
    SeparatorOf(w, style.point, mark, tail);
    WithoutAbsent(w, mark);
    NormalWithoutPoint(w, style.point, mark, tail);
    UnitsValue(n, k);
    PlainWhole(sign, Digits(High(n, k)) + tail);
  }

  /** What a number is read as: the amount printed, or a thousand times it where the point looks like a mark. */
  lemma NumberReads(sign: Option<char>, n: nat, k: nat, style: Style)
    requires ValidStyle(style)
    ensures PlainDecimal(sign, Normal(Number(n, k, style)))
         == Some(Signed(sign, if LooksGrouped(n, k, style) then n as real else n as real / Pow10(k) as real))
  {
    if k == 0 {
      WholeNumberReads(sign, n, style);
      OverOne(n);
    } else if LooksGrouped(n, k, style) {
      GroupedLookReads(sign, n, k, style);
    } else {
      PointedNumberReads(sign, n, k, style);
    }
  }

  lemma ThreeDecimals(n: nat, k: nat)
    requires k == 3
    ensures High(n, k) >= 1000 <==> n >= 1_000_000
  {
    assert High(n / 10 / 10, 1) == High(n / 10 / 10 / 10, 0);
    assert High(n / 10, 2) == High(n / 10 / 10, 1);
  }

  lemma {:induction false} FirstOfGrouped(digits: string, mark: char)
    requires digits != "" && AllDigits(digits)
    ensures Grouped(digits, mark) != "" && Grouped(digits, mark)[0] == digits[0]
  {
    if |digits| > 3 {
      FirstOfGrouped(digits[..|digits| - 3], mark);
    }
  }

  lemma FirstIsDigit(n: nat, style: Style)
    ensures Whole(n, style) != "" && IsDigit(Whole(n, style)[0])
  {
    FirstOfGrouped(Digits(n), GroupMark(style));
  }

  lemma MarkedIsNumeric(w: string, mark: char)
    requires DigitsOr(w, mark) && IsSeparator(mark)
    ensures Numeric(w)
  {
  }

  lemma NumberIsNumeric(n: nat, k: nat, style: Style)
    requires ValidStyle(style)
    ensures Numeric(Number(n, k, style)) && HasDigit(Number(n, k, style))
  {
    var w := Whole(High(n, k), style);
    WholeReads(High(n, k), style);
    MarkedIsNumeric(w, GroupMark(style));
    FirstIsDigit(High(n, k), style);
    var tail := if k == 0 then "" else [style.point] + Padded(n, k);
    TailIsNumeric(n, k, style.point);
    NumericConcat(w, tail);
    assert Number(n, k, style) == w + tail;
    assert (w + tail)[0] == w[0];
  }

  lemma TailIsNumeric(n: nat, k: nat, point: char)
    requires IsSeparator(point)
    ensures Numeric(if k == 0 then "" else [point] + Padded(n, k))
  {
    if k > 0 {
      NumericConcat([point], Padded(n, k));
    }
  }

  lemma NumericConcat(a: string, b: string)
    requires Numeric(a) && Numeric(b)
    ensures Numeric(a + b)
  {
    assert forall i :: 0 <= i < |a + b| ==> (a + b)[i] == if i < |a| then a[i] else b[i - |a|];
  }

  /** What a printed amount reads as, whatever its sign, currency text, separators and number of decimals. */
  lemma PrintedReads(before: string, sign: Option<char>, between: string, n: nat, k: nat, style: Style, after: string)
    requires Decoration(before) && Decoration(between) && Decoration(after)
    requires ValidStyle(style) && (sign.Some? ==> IsSign(sign.value))
    ensures ParsedDecimal(Printed(before, sign, between, Number(n, k, style), after))
         == Some(Signed(sign, if LooksGrouped(n, k, style) then n as real else n as real / Pow10(k) as real))
  {
    NumberIsNumeric(n, k, style);
    DecorationIsSkipped(before, sign, between, Number(n, k, style), after);
    NumberReads(sign, n, k, style);
  }

  /** Every printed amount reads back exactly unless it is non-zero with three decimals and no grouping mark;
      such an amount is read a thousandfold. Two decimals, and none, are always exact. */
  lemma PrintedReadsBackIff(before: string, sign: Option<char>, between: string, n: nat, k: nat, style: Style, after: string)
    requires Decoration(before) && Decoration(between) && Decoration(after)
    requires ValidStyle(style) && (sign.Some? ==> IsSign(sign.value))
    ensures ParsedDecimal(Printed(before, sign, between, Number(n, k, style), after)) == Some(Signed(sign, n as real / Pow10(k) as real))
       <==> !LooksGrouped(n, k, style) || n == 0
  {
    PrintedReads(before, sign, between, n, k, style, after);
    if LooksGrouped(n, k, style) {
      ThousandfoldIsWrong(sign, n);
    }
  }

  lemma ThousandfoldIsWrong(sign: Option<char>, n: nat)
    ensures Signed(sign, n as real) == Signed(sign, n as real / Pow10(3) as real) <==> n == 0
  {
    assert Pow10(1) == 10 && Pow10(2) == 100 && Pow10(3) == 1000;
  }

  // ---------------------------------------------------------------- which texts are read at all

  lemma {:induction false} WithoutContents(s: string, c: char)
    ensures multiset(Without(s, c)) == multiset(s)[c := 0]
  {
    if s != "" {
      assert s == s[..|s| - 1] + [s[|s| - 1]];
      WithoutContents(s[..|s| - 1], c);
    }
  }

  lemma {:induction false} ReplaceFirstContents(s: string, c: char, d: char)
    requires c in s
    ensures multiset(ReplaceFirst(s, c, d)) == multiset(s) - multiset{c} + multiset{d}
  {
    assert s == [s[0]] + s[1..];
    if s[0] != c {
      ReplaceFirstContents(s[1..], c, d);
    }
  }

  lemma {:induction false} BodyIsNumeric(s: string)
    ensures Numeric(Body(s))
  {
    if s != "" {
      BodyIsNumeric(s[..|s| - 1]);
    }
  }

  lemma PlainDecimalIff(sign: Option<char>, z: string)
    requires Numeric(z) && HasDigit(z)
    ensures PlainDecimal(sign, z).Some? <==> multiset(z)['.'] <= 1 && multiset(z)[','] == 0
  {
    var point := LastIndex(z, '.');
    if point < 0 {
      DigitsIff(z);
    } else {
      var t := z[..point] + z[point + 1..];
      assert z == z[..point] + [z[point]] + z[point + 1..];
      assert multiset(z) == multiset(t) + multiset{'.'};
      assert Numeric(t);
      DigitsIff(t);
      var i :| 0 <= i < |z| && IsDigit(z[i]);
      assert z[i] in multiset(z);
      assert z[i] in multiset(t);
    }
  }

  lemma DigitsIff(t: string)
    requires Numeric(t)
    ensures AllDigits(t) <==> multiset(t)['.'] == 0 && multiset(t)[','] == 0
  {
    if AllDigits(t) {
      assert '.' !in t && ',' !in t;
    } else {
      var i :| 0 <= i < |t| && !IsDigit(t[i]);
      assert t[i] in multiset(t);
    }
  }

  /** Both separators occur and the rightmost kind occurs again: neither can be grouping. */
  predicate Muddled(x: string) {
    var lastDot, lastComma := LastIndex(x, '.'), LastIndex(x, ',');
    lastDot >= 0 && lastComma >= 0 && multiset(x)[if lastDot > lastComma then '.' else ','] > 1
  }

  lemma PresentIff(x: string, c: char)
    ensures LastIndex(x, c) >= 0 <==> multiset(x)[c] > 0
  {
    if LastIndex(x, c) >= 0 {
      assert x[LastIndex(x, c)] in multiset(x);
    } else {
      assert c !in x;
    }
  }

  lemma SameDigits(x: string, y: string)
    requires HasDigit(x) && forall c :: IsDigit(c) ==> multiset(y)[c] == multiset(x)[c]
    ensures HasDigit(y)
  {
    var i :| 0 <= i < |x| && IsDigit(x[i]);
    assert x[i] in multiset(x);
    assert x[i] in multiset(y);
    var j :| 0 <= j < |y| && y[j] == x[i];
  }

  lemma NumericByContents(x: string, y: string)
    requires Numeric(x) && forall c :: c in multiset(y) ==> c in multiset(x) || IsSeparator(c)
    ensures Numeric(y)
  {
    forall i | 0 <= i < |y|
      ensures IsDigit(y[i]) || IsSeparator(y[i])
    {
      assert y[i] in multiset(y);
    }
  }

  /** What normalising leaves of a text: its digits, and of its separators only those of the point's kind, the
      first of which is a dot. */
  lemma NormalContents(x: string)
    requires Numeric(x)
    ensures var m := multiset(x);
      multiset(Normal(x)) == match DecimalSeparator(x)
        case None => m['.' := 0][',' := 0]
        case Some(sep) => if sep == ',' then m['.' := 0] - multiset{','} + multiset{'.'} else m[',' := 0]
  {
    WithoutContents(x, '.');
    WithoutContents(x, ',');
    WithoutContents(Without(x, '.'), ',');
    PresentIff(x, ',');
    if DecimalSeparator(x) == Some(',') {
      assert ',' in multiset(Without(x, '.'));
      ReplaceFirstContents(Without(x, '.'), ',', '.');
    }
  }

  lemma PlainIffNotMuddled(x: string)
    requires Numeric(x)
    ensures multiset(Normal(x))['.'] <= 1 && multiset(Normal(x))[','] == 0 <==> !Muddled(x)
  {
    NormalContents(x);
    PresentIff(x, '.');
    PresentIff(x, ',');
  }

  /** A text is read exactly when it has a digit and its separators can be told apart. */
  lemma ReadsIff(s: string)
    ensures ParsedDecimal(s).Some? <==> HasDigit(Body(s)) && !Muddled(Body(s))
  {
    var x := Body(s);
    BodyIsNumeric(s);
    if HasDigit(x) {
      NormalContents(x);
      PlainIffNotMuddled(x);
      SameDigits(x, Normal(x));
      NumericByContents(x, Normal(x));
      PlainDecimalIff(SignOf(s), Normal(x));
    }
  }
}
