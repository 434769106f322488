/** The text form of BigDecimal: the string constructor and toString. */
module DecimalText {
  import opened Results
  import opened Strings
  import opened Decimals

  /** Every character is a decimal digit (the empty string included). */
  predicate AllDigits(s: string) {
    forall i :: 0 <= i < |s| ==> IsDigit(s[i])
  }

  /** A run of `k` zero digits. */
  function Zeros(k: nat): (z: string)
    ensures |z| == k && forall i :: 0 <= i < k ==> z[i] == '0'
  {
    if k == 0 then [] else Zeros(k - 1) + "0"
  }

  /** No exponent marker `e` or `E` occurs. */
  predicate NoMarker(s: string) {
    forall i :: 0 <= i < |s| ==> s[i] != 'e' && s[i] != 'E'
  }

  /** The position of the first exponent marker `e` or `E`, or -1. */
  function ExponentMark(s: string): (r: int)
    ensures -1 <= r < |s|
    ensures r >= 0 ==> (s[r] == 'e' || s[r] == 'E') && forall i :: 0 <= i < r ==> s[i] != 'e' && s[i] != 'E'
    ensures r == -1 <==> forall i :: 0 <= i < |s| ==> s[i] != 'e' && s[i] != 'E'
  {
    if s == [] then -1
    else if s[0] == 'e' || s[0] == 'E' then 0
    else var k := ExponentMark(s[1..]); if k < 0 then -1 else k + 1
  }

  /** The digits of a mantissa with at most one decimal point, read as a
      decimal whose scale is the number of digits after the point. At least
      one digit is required. */
  function ParseMantissa(m: string): (r: Result<Dec>)
    ensures r.Err? ==> r.error == NumberFormat
    ensures IsNumeric(m) ==> r == Ok(Dec(DigitsValue(m), 0))
    ensures r.Ok? ==> 0 <= r.value.scale < |m| && r.value.unscaled >= 0
  {
    var p := IndexOf(m, '.');
    if p < 0 then
      if IsNumeric(m) then Ok(Dec(DigitsValue(m), 0)) else Err(NumberFormat)
    else
      NoPointInNumeric(m, p);
      ParsePointed(m[..p], m[p + 1..])
  }

  /** The digits on both sides of the point, read as one coefficient whose
      scale is the number of digits after the point. */
  function ParsePointed(whole: string, frac: string): (r: Result<Dec>)
    ensures r.Err? ==> r.error == NumberFormat
    ensures r.Ok? ==> r.value.scale == |frac| && r.value.unscaled >= 0
  {
    if AllDigits(whole) && AllDigits(frac) && |whole| + |frac| > 0 then
      DigitsAppend(whole, frac);
      Ok(Dec(DigitsValue(whole + frac), |frac|))
    else
      Err(NumberFormat)
  }

  /** A numeric string has no point in it. */
  lemma NoPointInNumeric(m: string, p: int)
    requires 0 <= p < |m| && m[p] == '.'
    ensures !IsNumeric(m)
  {
  }

  lemma DigitsAppend(a: string, b: string)
    requires AllDigits(a) && AllDigits(b)
    ensures AllDigits(a + b)
  {
  }

  /** A mantissa, optionally followed by `e` or `E` and a signed int exponent;
      the scale is the number of fraction digits minus the exponent, and a
      scale outside the int range is a NumberFormatException. */
  function ParseUnsigned(s: string): (r: Result<Dec>)
    ensures r.Err? ==> r.error == NumberFormat
    ensures r.Ok? ==> r.value.unscaled >= 0 && IsInt32(r.value.scale)
  {
    var e := ExponentMark(s);
    var m :- ParseMantissa(if e < 0 then s else s[..e]);
    var exp :- if e < 0 then Ok(0) else ParseInt(s[e + 1..]);
    Scaled(m, exp)
  }

  /** The mantissa with its scale lowered by the exponent; a scale outside
      the int range is a NumberFormatException. */
  function Scaled(m: Dec, exp: int): (r: Result<Dec>)
    ensures r.Ok? <==> IsInt32(m.scale - exp)
    ensures r.Ok? ==> r.value == Dec(m.unscaled, m.scale - exp)
    ensures r.Err? ==> r.error == NumberFormat
  {
    var scale := m.scale - exp;
    if IsInt32(scale) then Ok(Dec(m.unscaled, scale)) else Err(NumberFormat)
  }

  /** new BigDecimal(String): an optional sign, then an unsigned decimal;
      anything else is a NumberFormatException. */
  function Parse(s: string): (r: Result<Dec>)
    ensures r.Err? ==> r.error == NumberFormat
    ensures s == [] ==> r == Err(NumberFormat)
    ensures IsNumeric(s) ==> r == Ok(Dec(DigitsValue(s), 0))
    ensures r.Ok? ==> IsInt32(r.value.scale)
  {
    if |s| > 0 && s[0] == '-' then
      var d :- ParseUnsigned(s[1..]);
      Ok(Dec(-d.unscaled, d.scale))
    else if |s| > 0 && s[0] == '+' then
      ParseUnsigned(s[1..])
    else
      ParseUnsigned(s)
  }

  /** The exponent of the leading digit: the number of digits minus one,
      minus the scale. */
  function Adjusted(d: Dec): int {
    |NatToString(AbsInt(d.unscaled))| - 1 - d.scale
  }

  /** The coefficient digits with a decimal point `scale` places from the
      right, padded with zeros after "0." when there are too few digits. */
  function WithPoint(coeff: string, scale: nat): string {
    if |coeff| > scale then coeff[..|coeff| - scale] + "." + coeff[|coeff| - scale..]
    else "0." + Zeros(scale - |coeff|) + coeff
  }

  /** Scientific notation: the first digit, the rest after a point, and the
      adjusted exponent with an explicit sign. */
  function Scientific(coeff: string, adjusted: int): string
    requires |coeff| > 0
  {
    LeadingDigit(coeff) + (if adjusted != 0 then "E" + ExponentText(adjusted) else "")
  }

  /** The coefficient with a point after its first digit (none for a single digit). */
  function LeadingDigit(coeff: string): string
    requires |coeff| > 0
  {
    if |coeff| > 1 then [coeff[0]] + "." + coeff[1..] else coeff
  }

  /** The exponent with its sign always written. */
  function ExponentText(adjusted: int): string {
    (if adjusted > 0 then "+" else "") + IntToString(adjusted)
  }

  function UnsignedText(coeff: string, scale: int, adjusted: int): string
    requires |coeff| > 0
  {
    if scale == 0 then coeff
    else if scale > 0 && adjusted >= -6 then WithPoint(coeff, scale)
    else Scientific(coeff, adjusted)
  }

  /** BigDecimal.toString: plain digits at scale 0, a decimal point when the
      scale is positive and the adjusted exponent is at least -6, scientific
      notation otherwise; a leading '-' for a negative value. */
  function ToString(d: Dec): (s: string)
    ensures |s| > 0
  {
    var coeff := NatToString(AbsInt(d.unscaled));
    (if d.unscaled < 0 then "-" else "") + UnsignedText(coeff, d.scale, Adjusted(d))
  }

  lemma {:induction false} ZerosValue(k: nat)
    ensures AllDigits(Zeros(k)) && DigitsValue(Zeros(k)) == 0
  {
    if k > 0 {
      ZerosValue(k - 1);
      assert Zeros(k)[..k - 1] == Zeros(k - 1);
    }
  }

  /** Leading zeros do not change the value of a digit string. */
  lemma {:induction false} LeadingZeros(k: nat, s: string)
    requires AllDigits(s)
    ensures AllDigits(Zeros(k) + s) && DigitsValue(Zeros(k) + s) == DigitsValue(s)
    decreases |s|
  {
    if s == [] {
      assert Zeros(k) + s == Zeros(k);
      ZerosValue(k);
    } else {
      var t := s[..|s| - 1];
      LeadingZeros(k, t);
      assert (Zeros(k) + s)[..|Zeros(k) + s| - 1] == Zeros(k) + t;
    }
  }

  lemma ParseIntPlus(n: nat)
    requires n <= IntMax
    ensures ParseInt("+" + NatToString(n)) == Ok(n)
  {
    NatToStringRoundTrip(n);
    assert ("+" + NatToString(n))[1..] == NatToString(n);
  }

  /** The exponent text toString writes reads back as the exponent. */
  lemma ExponentRoundTrip(adjusted: int)
    requires IsInt32(adjusted)
    ensures ParseInt(ExponentText(adjusted)) == Ok(adjusted)
  {
    if adjusted > 0 {
      ParseIntPlus(adjusted);
    } else {
      ParseIntRoundTrip(adjusted);
      assert "" + IntToString(adjusted) == IntToString(adjusted);
    }
  }

  lemma NoMarkInDigits(s: string)
    requires AllDigits(s)
    ensures ExponentMark(s) == -1 && IndexOf(s, '.') == -1
  {
  }

  /** The point after a run of digits is the first point. */
  lemma {:induction false} PointAfterDigits(a: string, b: string)
    requires AllDigits(a)
    ensures IndexOf(a + "." + b, '.') == |a|
    decreases |a|
  {
    if a != [] {
      assert (a + "." + b)[1..] == a[1..] + "." + b;
      PointAfterDigits(a[1..], b);
    }
  }

  /** The marker after a mantissa free of markers is the first marker. */
  lemma {:induction false} MarkAfterMantissa(m: string, x: string)
    requires NoMarker(m)
    ensures ExponentMark(m + "E" + x) == |m|
    decreases |m|
  {
    if m != [] {
      assert (m + "E" + x)[1..] == m[1..] + "E" + x;
      MarkAfterMantissa(m[1..], x);
    }
  }

  /** A mantissa and an exponent read separately: the exponent lowers the
      scale, which must stay an int. */
  lemma WithExponent(m: string, x: string, mantissa: Dec, exp: int)
    requires NoMarker(m)
    requires ParseMantissa(m) == Ok(mantissa) && ParseInt(x) == Ok(exp)
    ensures ParseUnsigned(m + "E" + x) == Scaled(mantissa, exp)
  {
    var s := m + "E" + x;
    MarkAfterMantissa(m, x);
    assert s[..|m|] == m && s[|m| + 1..] == x;
    ParseUnsignedAt(s, |m|, mantissa, exp);
  }

  /** The unsigned reading once the marker, the mantissa and the exponent
      are known. */
  lemma ParseUnsignedAt(s: string, e: nat, mantissa: Dec, exp: int)
    requires ExponentMark(s) == e
    requires ParseMantissa(s[..e]) == Ok(mantissa) && ParseInt(s[e + 1..]) == Ok(exp)
    ensures ParseUnsigned(s) == Scaled(mantissa, exp)
  {
    assert (if e < 0 then s else s[..e]) == s[..e];
    assert (if e < 0 then Ok(0) else ParseInt(s[e + 1..])) == Ok(exp);
  }

  /** A mantissa with no exponent part, whose scale must be an int. */
  lemma WithoutExponent(m: string, mantissa: Dec)
    requires NoMarker(m)
    requires ParseMantissa(m) == Ok(mantissa)
    ensures ParseUnsigned(m) == if IsInt32(mantissa.scale) then Ok(mantissa) else Err(NumberFormat)
  {
  }

  /** Digits split by one point. */
  lemma PointedMantissa(whole: string, frac: string)
    requires AllDigits(whole) && AllDigits(frac) && |whole| + |frac| > 0
    ensures AllDigits(whole + frac) && NoMarker(whole + "." + frac)
    ensures ParseMantissa(whole + "." + frac) == Ok(Dec(DigitsValue(whole + frac), |frac|))
  {
    var m := whole + "." + frac;
    PointAfterDigits(whole, frac);
    assert m[..|whole|] == whole && m[|whole| + 1..] == frac;
  }

  lemma PlainRoundTrip(coeff: string, scale: nat)
    requires IsNumeric(coeff) && 0 < scale <= IntMax
    ensures ParseUnsigned(WithPoint(coeff, scale)) == Ok(Dec(DigitsValue(coeff), scale))
  {
    var t := WithPoint(coeff, scale);
    if |coeff| > scale {
      var k := |coeff| - scale;
      assert t == coeff[..k] + "." + coeff[k..];
      SplitRoundTrip(coeff, k);
    } else {
      assert t == "0." + Zeros(scale - |coeff|) + coeff;
      PaddedRoundTrip(coeff, scale);
    }
    assert ParseUnsigned(t).Ok? && ParseUnsigned(t).value == Dec(DigitsValue(coeff), scale);
  }

  lemma SplitRoundTrip(coeff: string, k: nat)
    requires IsNumeric(coeff) && 0 < k < |coeff| && |coeff| - k <= IntMax
    ensures ParseUnsigned(coeff[..k] + "." + coeff[k..]) == Ok(Dec(DigitsValue(coeff), |coeff| - k))
  {
    SplitMantissa(coeff, k);
    SplitNoMarker(coeff, k);
    WithoutExponent(coeff[..k] + "." + coeff[k..], Dec(DigitsValue(coeff), |coeff| - k));
  }

  lemma SplitMantissa(coeff: string, k: nat)
    requires IsNumeric(coeff) && 0 < k < |coeff|
    ensures ParseMantissa(coeff[..k] + "." + coeff[k..]) == Ok(Dec(DigitsValue(coeff), |coeff| - k))
  {
    var whole, frac := coeff[..k], coeff[k..];
    PointedMantissa(whole, frac);
    JoinedDigits(coeff, k);
    var r := ParseMantissa(whole + "." + frac);
    assert r.Ok? && r.value == Dec(DigitsValue(coeff), |coeff| - k);
  }

  lemma JoinedDigits(coeff: string, k: nat)
    requires IsNumeric(coeff) && 0 < k < |coeff|
    ensures AllDigits(coeff[..k] + coeff[k..]) && DigitsValue(coeff[..k] + coeff[k..]) == DigitsValue(coeff)
  {
    assert coeff[..k] + coeff[k..] == coeff;
  }

  lemma SplitNoMarker(coeff: string, k: nat)
    requires IsNumeric(coeff) && 0 < k < |coeff|
    ensures NoMarker(coeff[..k] + "." + coeff[k..])
  {
    PointedMantissa(coeff[..k], coeff[k..]);
  }

  lemma PaddedRoundTrip(coeff: string, scale: nat)
    requires IsNumeric(coeff) && |coeff| <= scale <= IntMax
    ensures ParseUnsigned("0." + Zeros(scale - |coeff|) + coeff) == Ok(Dec(DigitsValue(coeff), scale))
  {
    var frac := Zeros(scale - |coeff|) + coeff;
    var s := "0." + Zeros(scale - |coeff|) + coeff;
    assert s == "0" + "." + frac;
    assert "0" + frac == Zeros(scale - |coeff| + 1) + coeff;
    LeadingZeros(scale - |coeff|, coeff);
    LeadingZeros(scale - |coeff| + 1, coeff);
    assert DigitsValue("0" + frac) == DigitsValue(coeff);
    PointedMantissa("0", frac);
    var r := ParseMantissa(s);
    assert r.Ok? && r.value == Dec(DigitsValue(coeff), scale);
    WithoutExponent(s, r.value);
  }

  lemma ScientificRoundTrip(coeff: string, scale: int, adjusted: int)
    requires IsNumeric(coeff) && adjusted == |coeff| - 1 - scale && adjusted != 0 && IsInt32(adjusted) && IsInt32(scale)
    ensures ParseUnsigned(Scientific(coeff, adjusted)) == Ok(Dec(DigitsValue(coeff), scale))
  {
    ScientificParts(coeff, adjusted);
    ScientificShape(coeff, adjusted);
    var r := ParseUnsigned(Scientific(coeff, adjusted));
    assert r.Ok? && r.value == Dec(DigitsValue(coeff), scale);
  }

  /** The mantissa and the exponent of scientific notation, read back. */
  lemma ScientificParts(coeff: string, adjusted: int)
    requires IsNumeric(coeff) && IsInt32(adjusted) && IsInt32(|coeff| - 1 - adjusted)
    ensures var r := ParseUnsigned(LeadingDigit(coeff) + "E" + ExponentText(adjusted));
      r.Ok? && r.value == Dec(DigitsValue(coeff), |coeff| - 1 - adjusted)
  {
    ExponentRoundTrip(adjusted);
    LeadingMantissa(coeff);
    WithExponent(LeadingDigit(coeff), ExponentText(adjusted), Dec(DigitsValue(coeff), |coeff| - 1), adjusted);
  }

  lemma ScientificShape(coeff: string, adjusted: int)
    requires |coeff| > 0 && adjusted != 0
    ensures Scientific(coeff, adjusted) == LeadingDigit(coeff) + "E" + ExponentText(adjusted)
  {
    assert LeadingDigit(coeff) + ("E" + ExponentText(adjusted)) == LeadingDigit(coeff) + "E" + ExponentText(adjusted);
  }

  /** The mantissa of scientific notation reads back as the coefficient
      with all but one digit after the point. */
  lemma LeadingMantissa(coeff: string)
    requires IsNumeric(coeff)
    ensures NoMarker(LeadingDigit(coeff))
    ensures ParseMantissa(LeadingDigit(coeff)) == Ok(Dec(DigitsValue(coeff), |coeff| - 1))
  {
    if |coeff| > 1 {
      assert [coeff[0]] + coeff[1..] == coeff;
      PointedMantissa([coeff[0]], coeff[1..]);
    }
  }

  lemma UnsignedRoundTrip(coeff: string, scale: int, adjusted: int)
    requires IsNumeric(coeff) && adjusted == |coeff| - 1 - scale && IsInt32(adjusted) && IsInt32(scale)
    ensures ParseUnsigned(UnsignedText(coeff, scale, adjusted)) == Ok(Dec(DigitsValue(coeff), scale))
  {
    if scale == 0 {
      NoMarkInDigits(coeff);
    } else if scale > 0 && adjusted >= -6 {
      PlainRoundTrip(coeff, scale);
    } else {
      ScientificRoundTrip(coeff, scale, adjusted);
    }
  }

  /** new BigDecimal(d.toString()) gives back d, unscaled value and scale
      alike, for every d with an int scale (as every BigDecimal has) whose
      printed exponent fits in an int. */
  lemma ParseToStringRoundTrip(d: Dec)
    requires IsInt32(d.scale) && IsInt32(Adjusted(d))
    ensures Parse(ToString(d)) == Ok(d)
  {
    var n := AbsInt(d.unscaled);
    var coeff := NatToString(n);
    var t := UnsignedText(coeff, d.scale, Adjusted(d));
    NatToStringRoundTrip(n);
    UnsignedRoundTrip(coeff, d.scale, Adjusted(d));
    assert ParseUnsigned(t).Ok? && ParseUnsigned(t).value == Dec(n, d.scale);
    UnsignedTextLeadsWithDigit(coeff, d.scale, Adjusted(d));
    SignedShape(d);
    if d.unscaled < 0 {
      ParseNegative(t, Dec(n, d.scale));
      assert Parse(ToString(d)).value == d;
    } else {
      ParseUnsignedText(t);
      assert Parse(ToString(d)).value == d;
    }
  }

  lemma SignedShape(d: Dec)
    ensures var t := UnsignedText(NatToString(AbsInt(d.unscaled)), d.scale, Adjusted(d));
      ToString(d) == if d.unscaled < 0 then "-" + t else t
  {
    var t := UnsignedText(NatToString(AbsInt(d.unscaled)), d.scale, Adjusted(d));
    assert "" + t == t;
  }

  lemma UnsignedTextLeadsWithDigit(coeff: string, scale: int, adjusted: int)
    requires IsNumeric(coeff)
    ensures IsDigit(UnsignedText(coeff, scale, adjusted)[0])
  {
  }

  lemma ParseNegative(t: string, d: Dec)
    requires ParseUnsigned(t) == Ok(d)
    ensures Parse("-" + t) == Ok(Dec(-d.unscaled, d.scale))
  {
    var s := "-" + t;
    assert s[0] == '-' && s[1..] == t;
    var r := Parse(s);
    assert r.Ok? && r.value == Dec(-d.unscaled, d.scale);
  }

  lemma ParseUnsignedText(t: string)
    requires |t| > 0 && IsDigit(t[0])
    ensures Parse(t) == ParseUnsigned(t)
  {
  }

  /** toString is digits only exactly for non-negative whole numbers at scale
      zero, so "22.50" or "-3" never passes StringUtils.isNumeric. */
  lemma ToStringNumeric(d: Dec)
    ensures IsNumeric(ToString(d)) <==> d.unscaled >= 0 && d.scale == 0
  {
    var coeff := NatToString(AbsInt(d.unscaled));
    var t := UnsignedText(coeff, d.scale, Adjusted(d));
    if d.unscaled < 0 {
      assert !IsDigit(ToString(d)[0]);
    } else {
      assert ToString(d) == t;
      if d.scale > 0 && Adjusted(d) >= -6 {
        if |coeff| > d.scale {
          assert t[|coeff| - d.scale] == '.';
        } else {
          assert t[1] == '.';
        }
      } else if d.scale != 0 {
        assert t[|LeadingDigit(coeff)|] == 'E';
      }
    }
  }

  /** "1.5E-2147483648" has scale 1 + 2147483648, beyond the int range, and
      new BigDecimal refuses it with a NumberFormatException. */
  lemma ScaleBeyondInt(text: string)
    requires text == "1.5E-2147483648"
    ensures Parse(text) == Err(NumberFormat)
  {
    var m, x := text[..3], text[4..];
    assert text == m + "E" + x by {
      assert text[3] == 'E';
      assert text == text[..3] + [text[3]] + text[4..];
    }
    OneAndAHalf(m);
    IntMinExponent(x);
    WithExponent(m, x, Dec(15, 1), -2147483648);
    ParseUnsignedText(text);
  }

  /** "1.5" reads as 15 at scale 1, with no exponent marker. */
  lemma OneAndAHalf(m: string)
    requires m == "1.5"
    ensures NoMarker(m) && ParseMantissa(m) == Ok(Dec(15, 1))
  {
    PointedMantissa("1", "5");
    assert "1" + "." + "5" == m;
    assert "15"[..1] == "1";
    assert DigitsValue("15") == 15;
  }

  /** "-2147483648" reads as Integer.MIN_VALUE. */
  lemma IntMinExponent(x: string)
    requires x == "-2147483648"
    ensures ParseInt(x) == Ok(-2147483648)
  {
    assert x[1..] == "2147483648";
    IntMinText();
  }

  /** The digits of Integer.MIN_VALUE's magnitude. */
  lemma IntMinText()
    ensures DigitsValue("2147483648") == 2147483648
  {
    var s := "2147483648";
    assert s[..1] == "2" && DigitsValue("2") == 2;
    assert s[..2][..1] == s[..1];
    assert DigitsValue(s[..2]) == 21;
    assert s[..3][..2] == s[..2];
    assert DigitsValue(s[..3]) == 214;
    assert s[..4][..3] == s[..3];
    assert DigitsValue(s[..4]) == 2147;
    assert s[..5][..4] == s[..4];
    assert DigitsValue(s[..5]) == 21474;
    assert s[..6][..5] == s[..5];
    assert DigitsValue(s[..6]) == 214748;
    assert s[..7][..6] == s[..6];
    assert DigitsValue(s[..7]) == 2147483;
    assert s[..8][..7] == s[..7];
    assert DigitsValue(s[..8]) == 21474836;
    assert s[..9][..8] == s[..8];
    assert DigitsValue(s[..9]) == 214748364;
    assert s[..9] == s[..|s| - 1];
  }
}
