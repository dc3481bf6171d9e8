/** Numbers written out in plain decimals: a reading and a writing without rounding, as SegmentNav supposes. */
module PlainNumbers {
  import opened Decimals
  import opened IGDecimal
  import opened SegmentNav
  import opened Wrappers

  function ParsePlain(s: string): Option<real> {
    if s != "" && s[0] == '-' then PlainDecimal(Some('-'), s[1..]) else PlainDecimal(None, s)
  }

  /** n units of the k-th decimal, with the point k digits from the right. */
  function PrintPlain(n: int, k: nat): string {
    var units: nat := if n < 0 then -n else n;
    (if n < 0 then "-" else "") + (Digits(High(units, k)) + "." + Padded(units, k))
  }

  ghost function FormatPlain(x: real): string {
    if IsDecimal(x) then var n: int, k: nat :| x == Decimal(n, k); PrintPlain(n, k) else ""
  }

  lemma UnsignedReadsBack(sign: Option<char>, units: nat, k: nat)
    ensures PlainDecimal(sign, Digits(High(units, k)) + "." + Padded(units, k)) == Some(Signed(sign, Decimal(units, k)))
  {
    PlainPointed(sign, Digits(High(units, k)), Padded(units, k));
    ScaledUnits(sign, units, k);
  }

  /** Every decimal reads back as itself. */
  lemma PlainReadsBack(n: int, k: nat)
    ensures ParsePlain(PrintPlain(n, k)) == Some(Decimal(n, k))
  {
    var units: nat := if n < 0 then -n else n;
    var digits := Digits(High(units, k)) + "." + Padded(units, k);
    if n < 0 {
      assert PrintPlain(n, k) == "-" + digits;
      assert PrintPlain(n, k)[1..] == digits;
      UnsignedReadsBack(Some('-'), units, k);
      NegatedFraction(units as real, Pow10(k) as real);
    } else {
      assert PrintPlain(n, k) == digits;
      assert IsDigit(digits[0]);
      UnsignedReadsBack(None, units, k);
    }
  }

  lemma ScaledIsDecimal(sign: Option<char>, digits: string, decimals: nat)
    requires Scaled(sign, digits, decimals).Some?
    ensures IsDecimal(Scaled(sign, digits, decimals).value)
  {
    assert IsDecimal(Decimal(DigitsValue(digits), decimals));
    NegationIsDecimal(Decimal(DigitsValue(digits), decimals));
  }

  lemma ParsedIsDecimal(s: string)
    requires ParsePlain(s).Some?
    ensures IsDecimal(ParsePlain(s).value)
  {
    var sign, text := if s != "" && s[0] == '-' then Some('-') else None, if s != "" && s[0] == '-' then s[1..] else s;
    var point := LastIndex(text, '.');
    if point < 0 {
      ScaledIsDecimal(sign, text, 0);
    } else {
      ScaledIsDecimal(sign, text[..point] + text[point + 1..], |text| - point - 1);
    }
  }

  /** There is an exact reading and writing of numbers, so what is proved of every exact one is proved of one. */
  lemma PlainNumbersAreExact()
    ensures Exact(Numbers(s => ParsePlain(s), x => FormatPlain(x)))
  {
    forall s | ParsePlain(s).Some?
      ensures IsDecimal(ParsePlain(s).value)
    {
      ParsedIsDecimal(s);
    }
    forall x | IsDecimal(x)
      ensures FormatPlain(x) != "" && ParsePlain(FormatPlain(x)) == Some(x)
    {
      var n: int, k: nat :| x == Decimal(n, k) && FormatPlain(x) == PrintPlain(n, k);
      PlainReadsBack(n, k);
    }
  }
}
