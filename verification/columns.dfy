/** The column types of the store that constrain what the repositories write:
    `integer` quantities are 32-bit, and `numeric(10,2)` amounts and prices keep
    two decimals and at most eight integer digits. An insert of a value the
    column refuses fails, and a numeric value is read back in the store's own
    rendering. */
module Columns {
  import opened Common
  import opened Text
  import opened Decimal

  // ---------------------------------------------------------------------------
  // integer
  // ---------------------------------------------------------------------------

  const IntegerMin: int := -0x8000_0000
  const IntegerMax: int := 0x7FFF_FFFF

  /** The value fits an `integer` column. */
  predicate FitsInteger(q: int) {
    IntegerMin <= q <= IntegerMax
  }

  // ---------------------------------------------------------------------------
  // numeric(10,2) written from a decimal string
  // ---------------------------------------------------------------------------

  /** Ten significant digits, two of them after the point: values are held in
      hundredths, strictly below this bound in magnitude. */
  const NumericCentsLimit: int := 100_000_000 * 100

  /** The position of the first '.', or the length when there is none. */
  function PointIndex(s: string): (k: nat)
    ensures k <= |s|
    ensures k < |s| ==> s[k] == '.'
    ensures forall i :: 0 <= i < k ==> s[i] != '.'
  {
    if s == [] then 0 else if s[0] == '.' then 0 else 1 + PointIndex(s[1..])
  }

  /** A point after a run of digits is the first point. */
  lemma {:induction false} PointIndexAfterDigits(s: string, k: nat)
    requires k < |s| && s[k] == '.' && AllDigits(s[..k])
    ensures PointIndex(s) == k
  {
  }

  /** An accepted amount is a digit run, then optionally a point and one or two digits. */
  lemma AcceptedShape(s: string)
    requires IsDecimalAmount(s)
    ensures 1 <= PointIndex(s) && AllDigits(s[..PointIndex(s)])
    ensures PointIndex(s) < |s| ==> 1 <= |s| - PointIndex(s) - 1 <= 2 && AllDigits(s[PointIndex(s) + 1..])
  {
    AcceptedMatchesPattern(s);
    if |s| >= 1 && AllDigits(s) {
      assert s[..|s|] == s;
    } else {
      var k :| 1 <= k < |s| && s[k] == '.' && AllDigits(s[..k])
               && 1 <= |s| - k - 1 <= 2 && AllDigits(s[k + 1..]);
      PointIndexAfterDigits(s, k);
    }
  }

  /** The value of an accepted amount in hundredths. */
  function Cents(s: string): nat
    requires IsDecimalAmount(s)
  {
    AcceptedShape(s);
    var k := PointIndex(s);
    DigitsValue(s[..k]) * 100
    + (if k == |s| then 0
       else if |s| - k - 1 == 1 then DigitValue(s[k + 1]) * 10
       else DigitValue(s[k + 1]) * 10 + DigitValue(s[k + 2]))
  }

  /** How the store prints a `numeric(10,2)` value of `c` hundredths: the integer
      part without leading zeros, a point and exactly two digits. */
  function Render(c: nat): (r: string)
    ensures |r| >= 4 && r[|r| - 3] == '.'
  {
    NatToString(c / 100) + "." + [DigitChar(c % 100 / 10), DigitChar(c % 10)]
  }

  /** The value a `numeric(10,2)` column stores for a decimal string and prints
      back; None when the column refuses it. */
  function NumericText(s: string): Option<string> {
    if IsDecimalAmount(s) && Cents(s) < NumericCentsLimit then Some(Render(Cents(s))) else None
  }

  /** A rendering is itself an accepted amount, of the value it renders. */
  lemma RenderedIsAccepted(c: nat)
    ensures IsDecimalAmount(Render(c)) && Cents(Render(c)) == c
  {
    var w := NatToString(c / 100);
    var r := Render(c);
    var k := |w|;
    assert r[..k] == w;
    assert r[k + 1..] == [DigitChar(c % 100 / 10), DigitChar(c % 10)];
    assert 1 <= k < |r| && r[k] == '.' && AllDigits(r[..k]) && 1 <= |r| - k - 1 <= 2 && AllDigits(r[k + 1..]);
    PatternIsAccepted(r);
    PointIndexAfterDigits(r, k);
    NatToStringRoundTrip(c / 100);
  }

  /** The store keeps the value of every amount it accepts, exactly, and prints it
      with two decimals; it accepts an amount iff it is below 10^8. */
  lemma NumericTextKeepsValue(s: string)
    ensures NumericText(s).Some? <==> IsDecimalAmount(s) && Cents(s) < NumericCentsLimit
    ensures NumericText(s).Some? ==>
              && IsDecimalAmount(NumericText(s).value) && Cents(NumericText(s).value) == Cents(s)
              && NumericText(s).value[|NumericText(s).value| - 3] == '.'
  {
    if NumericText(s).Some? {
      RenderedIsAccepted(Cents(s));
    }
  }

  /** Writing back what the store printed stores it unchanged. */
  lemma NumericTextIdempotent(s: string)
    requires NumericText(s).Some?
    ensures NumericText(NumericText(s).value) == NumericText(s)
  {
    RenderedIsAccepted(Cents(s));
  }

  /** A total of "10.5" reads back as "10.50": the fraction is padded to two digits. */
  lemma NumericTextPadsFraction()
    ensures NumericText("10.5") == Some("10.50")
  {
    var a := "10.5";
    assert a[..2] == "10" && a[3..] == "5";
    PatternIsAccepted(a);
    PointIndexAfterDigits(a, 2);
    assert DigitsValue("10") == 10 by { assert "10"[..1] == "1"; }
    assert Render(1050) == "10.50";
  }

  /** A total of "007" reads back as "7.00": leading zeros are dropped. */
  lemma NumericTextDropsLeadingZeros()
    ensures NumericText("007") == Some("7.00")
  {
    var b := "007";
    assert AllDigits(b);
    PatternIsAccepted(b);
    assert b[..3] == b;
    assert DigitsValue(b) == 7 by {
      assert b[..2] == "00" && "00"[..1] == "0" && "0"[..0] == [];
      assert DigitsValue("00") == 0;
    }
    assert Render(700) == "7.00";
  }

  /** Three decimals are refused, and so is 10^8, while the largest value below it is kept. */
  lemma NumericTextLimits()
    ensures NumericText("1.234") == None
    ensures NumericText(Render(NumericCentsLimit)) == None
    ensures NumericText(Render(NumericCentsLimit - 1)) == Some(Render(NumericCentsLimit - 1))
  {
    RejectsThreeFractionDigits("1.234");
    RenderedIsAccepted(NumericCentsLimit);
    RenderedIsAccepted(NumericCentsLimit - 1);
  }

  // ---------------------------------------------------------------------------
  // numeric(10,2) written from a number
  // ---------------------------------------------------------------------------

  /** The store rounds a number to hundredths, half away from zero. */
  function RoundCents(x: real): (c: int)
    ensures x >= 0.0 ==> c >= 0
  {
    if x >= 0.0 then (x * 100.0 + 0.5).Floor else -((-x) * 100.0 + 0.5).Floor
  }

  /** The number read back from a `numeric(10,2)` column written with `x`. */
  function StoredPrice(x: real): real {
    RoundCents(x) as real / 100.0
  }

  /** The column accepts the number when its rounded value is below 10^8 in magnitude. */
  predicate FitsNumeric(x: real) {
    -NumericCentsLimit < RoundCents(x) < NumericCentsLimit
  }

  /** Rounding moves a price by at most half a hundredth. */
  lemma StoredPriceIsNearest(x: real)
    ensures -0.005 <= StoredPrice(x) - x <= 0.005
  {
    var f := RoundCents(x) as real;
    if x >= 0.0 {
      assert f <= x * 100.0 + 0.5 < f + 1.0;
    } else {
      assert -f <= (-x) * 100.0 + 0.5 < -f + 1.0;
    }
    assert StoredPrice(x) == f / 100.0;
  }

  /** A price already in whole hundredths is stored exactly. */
  lemma WholeCentsStoredExactly(k: int)
    ensures StoredPrice(k as real / 100.0) == k as real / 100.0
  {
    var y := k as real / 100.0;
    if k >= 0 {
      assert y * 100.0 + 0.5 == k as real + 0.5;
      assert RoundCents(y) == k;
    } else {
      assert (-y) * 100.0 + 0.5 == (-k) as real + 0.5;
      assert RoundCents(y) == k;
    }
  }

  /** A price of 9.999 is stored as 10. */
  lemma StoredPriceExample()
    ensures StoredPrice(9.999) == 10.0
  {
    assert 9.999 * 100.0 + 0.5 == 1000.4;
    assert (1000.4).Floor == 1000;
  }
}
