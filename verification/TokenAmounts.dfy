/**
  Printing a token amount: a count of base units becomes a decimal string with at most four
  fractional digits and no trailing zeros. The divisor `10 ** decimals` is a double before it is
  an integer, so it is a parameter here, and need not be the power of ten that is meant.
*/
module TokenAmounts {

  function Pow10(n: nat): (p: nat)
    ensures p > 0
  {
    if n == 0 then 1 else 10 * Pow10(n - 1)
  }

  function DigitChar(d: nat): char
    requires d < 10
  {
    "0123456789"[d]
  }

  /** Decimal digits of `n`, without leading zeros. */
  function Digits(n: nat): string {
    if n < 10 then [DigitChar(n)] else Digits(n / 10) + [DigitChar(n % 10)]
  }

  function Zeros(n: nat): string {
    if n == 0 then "" else Zeros(n - 1) + "0"
  }

  function PadStart(s: string, width: nat): string {
    if |s| >= width then s else Zeros(width - |s|) + s
  }

  /** `replace(/0+$/, '')` */
  function StripZeros(s: string): string {
    if s != "" && s[|s| - 1] == '0' then StripZeros(s[..|s| - 1]) else s
  }

  function FirstFour(s: string): string {
    if |s| <= 4 then s else s[..4]
  }

  /** The digits after the point: padded to full width, cut to four, trailing zeros dropped. */
  function PrintedFraction(frac: nat, decimals: nat): string {
    StripZeros(FirstFour(PadStart(Digits(frac), decimals)))
  }

  function FormatBalance(value: nat, decimals: nat, divisor: nat): string
    requires divisor > 0
  {
    if value == 0 then "0.00"
    else
      Printed(Digits(Quotient(value, divisor)), PrintedFraction(Remainder(value, divisor), decimals))
  }

  function Quotient(a: nat, d: nat): (q: nat)
    requires d > 0
  {
    a / d
  }

  function Remainder(a: nat, d: nat): (r: nat)
    requires d > 0
    ensures r < d
  {
    a % d
  }

  function Printed(whole: string, frac: string): string {
    if frac != "" then whole + "." + frac else whole
  }

  // ---------------------------------------------------------------------------
  // Reading decimals back
  // ---------------------------------------------------------------------------

  predicate IsDigit(c: char) { '0' <= c <= '9' }

  ghost predicate AllDigits(s: string) { forall c :: c in s ==> IsDigit(c) }

  function Val(s: string): nat
    requires AllDigits(s)
  {
    if s == "" then 0 else
      assert s[|s| - 1] in s;
      10 * Val(s[..|s| - 1]) + (s[|s| - 1] as int - '0' as int)
  }

  function DotIndex(s: string): (k: nat)
    ensures k <= |s|
  {
    if s == "" || s[0] == '.' then 0 else 1 + DotIndex(s[1..])
  }

  function WholePart(s: string): string { s[..DotIndex(s)] }

  function FracPart(s: string): string { if DotIndex(s) < |s| then s[DotIndex(s) + 1..] else "" }

  /** Digits, then possibly a point and up to four more digits. */
  ghost predicate IsDecimal4(s: string) {
    WholePart(s) != "" && AllDigits(WholePart(s)) && AllDigits(FracPart(s)) && |FracPart(s)| <= 4
  }

  /** The number such a string denotes, in ten-thousandths. */
  function ReadBack(s: string): nat
    requires IsDecimal4(s)
  {
    Val(WholePart(s)) * 10000 + Val(FracPart(s)) * Pow10(4 - |FracPart(s)|)
  }

  // ---------------------------------------------------------------------------
  // Digit strings
  // ---------------------------------------------------------------------------

  lemma Scale(a: int, b: int, c: int)
    ensures a * (b * c) == (a * b) * c == b * (a * c)
    ensures (a + b) * c == a * c + b * c
  {
  }

  lemma ScaleMonotone(a: int, b: int, c: int)
    requires a <= b && 0 <= c
    ensures a * c <= b * c
  {
    assert (b - a) * c >= 0;
  }

  lemma {:induction false} Pow10Sum(a: nat, b: nat)
    ensures Pow10(a + b) == Pow10(a) * Pow10(b)
  {
    if a == 0 {
    } else {
      Pow10Sum(a - 1, b);
      Scale(10, Pow10(a - 1), Pow10(b));
    }
  }

  lemma {:induction false} DigitsRead(n: nat)
    ensures AllDigits(Digits(n)) && Val(Digits(n)) == n
    ensures Digits(n) != "" && (n > 0 ==> Digits(n)[0] != '0')
  {
    if n >= 10 {
      DigitsRead(n / 10);
      assert Digits(n)[..|Digits(n)| - 1] == Digits(n / 10);
    } else {
      assert Digits(n)[..0] == "";
    }
  }

  lemma {:induction false} DigitsFit(n: nat, width: nat)
    requires width > 0 && n < Pow10(width)
    ensures |Digits(n)| <= width
  {
    if n < 10 {
    } else {
      DigitsFit(n / 10, width - 1);
    }
  }

  lemma {:induction false} ZerosRead(n: nat, s: string)
    requires AllDigits(s)
    ensures |Zeros(n)| == n && AllDigits(Zeros(n) + s) && Val(Zeros(n) + s) == Val(s)
    decreases n + |s|
  {
    if n == 0 && s == "" {
    } else if s == "" {
      ZerosRead(n - 1, "");
      assert Zeros(n - 1) + "" == Zeros(n - 1) && Zeros(n) + "" == Zeros(n);
      assert Zeros(n)[..n - 1] == Zeros(n - 1);
    } else {
      ZerosRead(n, s[..|s| - 1]);
      assert (Zeros(n) + s)[..n + |s| - 1] == Zeros(n) + s[..|s| - 1];
    }
  }

  /** `q` is `x` divided by `e`, rounded down. */
  ghost predicate Floors(q: int, x: int, e: int) {
    q * e <= x < q * e + e
  }

  /** `x` ten-thousandths stand for `units` base units: cut off below a ten-thousandth when the
      token has four decimals or more, exact when it has fewer. */
  ghost predicate Denotes(x: int, units: int, decimals: nat) {
    if decimals >= 4 then Floors(x, units, Pow10(decimals - 4)) else x == units * Pow10(4 - decimals)
  }

  lemma FloorsDigit(q: int, x: int, e: int, d: int)
    requires Floors(q, x, e) && 0 <= d < 10
    ensures Floors(q, 10 * x + d, 10 * e)
  {
    Scale(q, 10, e);
  }

  lemma {:induction false} PrefixReads(s: string, k: nat)
    requires AllDigits(s) && k <= |s|
    ensures Floors(Val(s[..k]), Val(s), Pow10(|s| - k))
  {
    if k == |s| {
      assert s[..k] == s;
    } else {
      var t := s[..|s| - 1];
      PrefixReads(t, k);
      assert t[..k] == s[..k];
      var c := s[|s| - 1];
      assert c in s;
      FloorsDigit(Val(t[..k]), Val(t), Pow10(|t| - k), c as int - '0' as int);
    }
  }

  lemma {:induction false} StripReads(s: string)
    requires AllDigits(s)
    ensures StripZeros(s) <= s && AllDigits(StripZeros(s))
    ensures Val(StripZeros(s)) * Pow10(|s| - |StripZeros(s)|) == Val(s)
    ensures StripZeros(s) != "" ==> StripZeros(s)[|StripZeros(s)| - 1] != '0'
  {
    if s == "" || s[|s| - 1] != '0' {
    } else {
      var t := s[..|s| - 1];
      StripReads(t);
      Scale(Val(StripZeros(t)), 10, Pow10(|t| - |StripZeros(t)|));
    }
  }

  lemma {:induction false} DotAfter(whole: string, rest: string)
    requires AllDigits(whole) && (rest == "" || rest[0] == '.')
    ensures DotIndex(whole + rest) == |whole|
  {
    if whole == "" {
      assert whole + rest == rest;
    } else {
      assert whole[0] in whole;
      assert (whole + rest)[1..] == whole[1..] + rest;
      DotAfter(whole[1..], rest);
    }
  }

  lemma PrintedParts(whole: string, frac: string)
    requires whole != "" && AllDigits(whole) && AllDigits(frac) && |frac| <= 4
    ensures var s := Printed(whole, frac);
      WholePart(s) == whole && FracPart(s) == frac && IsDecimal4(s)
  {
    if frac != "" {
      assert whole + "." + frac == whole + ("." + frac);
      DotAfter(whole, "." + frac);
    } else {
      assert whole + "" == whole;
      DotAfter(whole, "");
    }
  }

  lemma PadReads(s: string, width: nat)
    requires AllDigits(s) && |s| <= width
    ensures var padded := PadStart(s, width); |padded| == width && AllDigits(padded) && Val(padded) == Val(s)
  {
    if |s| < width { ZerosRead(width - |s|, s); }
  }

  lemma PaddedReads(frac: nat, decimals: nat)
    requires decimals > 0 && frac < Pow10(decimals)
    ensures var padded := PadStart(Digits(frac), decimals);
      |padded| == decimals && AllDigits(padded) && Val(padded) == frac
  {
    DigitsRead(frac);
    DigitsFit(frac, decimals);
    PadReads(Digits(frac), decimals);
  }

  // ---------------------------------------------------------------------------
  // The printed fraction
  // ---------------------------------------------------------------------------

  /** At most four digits, the last of them not zero. */
  ghost predicate IsFraction(p: string) {
    AllDigits(p) && |p| <= 4 && (p != "" ==> p[|p| - 1] != '0')
  }

  /** Fractional digits as ten-thousandths. */
  ghost function TenThousandths(p: string): nat {
    if IsFraction(p) then Val(p) * Pow10(4 - |p|) else 0
  }

  /** A remainder without decimals is still printed with one digit. */
  function Width(decimals: nat): nat { if decimals == 0 then 1 else decimals }

  lemma CutReads(cut: string)
    requires AllDigits(cut) && |cut| <= 4
    ensures IsFraction(StripZeros(cut)) && TenThousandths(StripZeros(cut)) == Val(cut) * Pow10(4 - |cut|)
  {
    StripReads(cut);
    var p := StripZeros(cut);
    Pow10Sum(|cut| - |p|, 4 - |cut|);
    Scale(Val(p), Pow10(|cut| - |p|), Pow10(4 - |cut|));
  }

  lemma PadIsDigits(s: string, width: nat)
    requires AllDigits(s)
    ensures AllDigits(PadStart(s, width))
  {
    if |s| < width { ZerosRead(width - |s|, s); }
  }

  lemma PrintsFraction(frac: nat, decimals: nat)
    ensures IsFraction(PrintedFraction(frac, decimals))
  {
    DigitsRead(frac);
    PadIsDigits(Digits(frac), decimals);
    CutReads(FirstFour(PadStart(Digits(frac), decimals)));
  }

  /** A remainder that fits into the width is cut off below a ten-thousandth and exact above. */
  lemma FractionReads(frac: nat, decimals: nat)
    requires frac < Pow10(Width(decimals))
    ensures Denotes(TenThousandths(PrintedFraction(frac, decimals)), frac, Width(decimals))
  {
    var width := Width(decimals);
    DigitsRead(frac);
    PaddedReads(frac, width);
    var padded := PadStart(Digits(frac), width);
    assert padded == PadStart(Digits(frac), decimals);
    if width >= 4 { LongFraction(padded); } else { CutReads(padded); }
  }

  lemma LongFraction(padded: string)
    requires AllDigits(padded) && |padded| >= 4
    ensures Denotes(TenThousandths(StripZeros(FirstFour(padded))), Val(padded), |padded|)
  {
    var cut := padded[..4];
    assert FirstFour(padded) == cut by {
      if |padded| == 4 { assert cut == padded; }
    }
    PrefixReads(padded, 4);
    CutReads(cut);
    assert Pow10(0) == 1;
  }

  // ---------------------------------------------------------------------------
  // Printing
  // ---------------------------------------------------------------------------

  lemma DivideBack(x: nat, d: nat)
    requires d > 0
    ensures x == Quotient(x, d) * d + Remainder(x, d)
  {
  }

  lemma ZeroPrints()
    ensures WholePart("0.00") == "0" && FracPart("0.00") == "00" && IsDecimal4("0.00") && ReadBack("0.00") == 0
  {
    PrintedParts("0", "00");
    assert "0" + "." + "00" == "0.00";
    assert "00"[..1] == "0" && "0"[..0] == "";
  }

  /** Whatever the divisor, the two parts of a printed balance are the digits of the quotient and
      of the remainder. */
  lemma NonzeroPrints(value: nat, decimals: nat, divisor: nat)
    requires value > 0 && divisor > 0
    ensures var s, p := FormatBalance(value, decimals, divisor), PrintedFraction(Remainder(value, divisor), decimals);
      && WholePart(s) == Digits(Quotient(value, divisor)) && FracPart(s) == p && IsFraction(p)
      && IsDecimal4(s) && ReadBack(s) == Quotient(value, divisor) * 10000 + TenThousandths(p)
  {
    var whole, frac := Quotient(value, divisor), Remainder(value, divisor);
    DigitsRead(whole);
    PrintsFraction(frac, decimals);
    PrintedParts(Digits(whole), PrintedFraction(frac, decimals));
  }

  /** A decimal that denotes the value. */
  ghost predicate PrintsTruly(value: nat, decimals: nat, divisor: nat)
    requires divisor > 0
  {
    var s := FormatBalance(value, decimals, divisor);
    IsDecimal4(s) && Denotes(ReadBack(s), value, decimals)
  }

  lemma PrintsWhenDenoted(value: nat, decimals: nat, divisor: nat, x: nat)
    requires value > 0 && divisor > 0
    requires x == Quotient(value, divisor) * 10000 + TenThousandths(PrintedFraction(Remainder(value, divisor), decimals))
    requires Denotes(x, value, decimals)
    ensures PrintsTruly(value, decimals, divisor)
  {
    NonzeroPrints(value, decimals, divisor);
  }

  lemma ZeroPrintsTruly(decimals: nat, divisor: nat)
    requires divisor > 0
    ensures PrintsTruly(0, decimals, divisor)
  {
    ZeroPrints();
  }

  /** With the power of ten itself, printing loses less than 10^(decimals-4) base units and never
      overstates; with fewer than four decimals it loses nothing. */
  lemma PowerPrintsTruly(value: nat, decimals: nat, divisor: nat)
    requires divisor == Pow10(decimals)
    ensures PrintsTruly(value, decimals, divisor)
  {
    if value == 0 {
      ZeroPrintsTruly(decimals, divisor);
    } else {
      var x := Quotient(value, divisor) * 10000 + TenThousandths(PrintedFraction(Remainder(value, divisor), decimals));
      assert Denotes(x, value, decimals) by { PartsDenote(value, Quotient(value, divisor), Remainder(value, divisor), decimals); }
      PrintsWhenDenoted(value, decimals, divisor, x);
    }
  }

  lemma PartsDenote(value: nat, whole: nat, frac: nat, decimals: nat)
    requires whole == Quotient(value, Pow10(decimals)) && frac == Remainder(value, Pow10(decimals))
    ensures Denotes(whole * 10000 + TenThousandths(PrintedFraction(frac, decimals)), value, decimals)
  {
    DivideBack(value, Pow10(decimals));
    FractionReads(frac, decimals);
    Combine(value, whole, frac, TenThousandths(PrintedFraction(frac, decimals)), decimals);
  }

  lemma Combine(value: nat, whole: nat, frac: nat, x: nat, decimals: nat)
    requires value == whole * Pow10(decimals) + frac && frac < Pow10(decimals)
    requires Denotes(x, frac, Width(decimals))
    ensures Denotes(whole * 10000 + x, value, decimals)
  {
    assert Pow10(4) == 10000;
    if decimals >= 4 {
      var e := Pow10(decimals - 4);
      Pow10Sum(4, decimals - 4);
      Scale(whole, 10000, e);
      Scale(whole * 10000, x, e);
    } else {
      var e := Pow10(4 - decimals);
      Pow10Sum(decimals, 4 - decimals);
      Scale(whole, Pow10(decimals), e);
      Scale(whole * Pow10(decimals), frac, e);
    }
  }

  lemma MultiplePrints(k: nat, decimals: nat, divisor: nat)
    requires k > 0 && divisor > 0
    ensures var s := FormatBalance(k * divisor, decimals, divisor); IsDecimal4(s) && ReadBack(s) == k * 10000
  {
    ScaleMonotone(1, k, divisor);
    assert Quotient(k * divisor, divisor) == k && Remainder(k * divisor, divisor) == 0 by { DivideMultiple(k, divisor); }
    NonzeroPrints(k * divisor, decimals, divisor);
    FractionReads(0, decimals);
    NothingDenotesZero(TenThousandths(PrintedFraction(0, decimals)), Width(decimals));
  }

  lemma DivideMultiple(k: nat, d: nat)
    requires d > 0
    ensures Quotient(k * d, d) == k && Remainder(k * d, d) == 0
  {
    var q, r := Quotient(k * d, d), Remainder(k * d, d);
    DivideBack(k * d, d);
    if q < k { ScaleMonotone(q + 1, k, d); Scale(q, 1, d); }
    if q > k { ScaleMonotone(k + 1, q, d); Scale(k, 1, d); }
  }

  lemma NothingDenotesZero(x: nat, decimals: nat)
    requires Denotes(x, 0, decimals)
    ensures x == 0
  {
    if decimals >= 4 && x > 0 { ScaleMonotone(1, x, Pow10(decimals - 4)); }
  }

  /** As many divisors as show a divisor that is too large. */
  function Witness(decimals: nat): nat { if decimals >= 4 then Pow10(decimals - 4) else 1 }

  lemma LongWitness(k: nat, power: nat, divisor: nat)
    requires k > 0 && power == 10000 * k && divisor != power
    ensures !Floors(k * 10000, k * divisor, k)
  {
    Scale(k, 10000, k);
    assert k * 10000 * k == k * power;
    if divisor < power { ScaleMonotone(divisor + 1, power, k); Scale(divisor, 1, k); }
    else { ScaleMonotone(power + 1, divisor, k); Scale(power, 1, k); }
  }

  lemma ShortWitness(scale: nat, power: nat, divisor: nat)
    requires power * scale == 10000 && divisor != power && scale > 0
    ensures divisor * scale != 10000
  {
    if divisor * scale == 10000 { CancelRight(divisor, power, scale); }
  }

  lemma CancelRight(a: int, b: int, c: int)
    requires c > 0 && a * c == b * c
    ensures a == b
  {
    if a < b { ScaleMonotone(a + 1, b, c); Scale(a, 1, c); }
    if b < a { ScaleMonotone(b + 1, a, c); Scale(b, 1, c); }
  }

  lemma WitnessDenies(decimals: nat, divisor: nat)
    requires 0 < divisor != Pow10(decimals)
    ensures !Denotes(Witness(decimals) * 10000, Witness(decimals) * divisor, decimals)
  {
    assert Pow10(4) == 10000;
    if decimals >= 4 {
      Pow10Sum(4, decimals - 4);
      LongWitness(Pow10(decimals - 4), Pow10(decimals), divisor);
    } else {
      Pow10Sum(decimals, 4 - decimals);
      ShortWitness(Pow10(4 - decimals), Pow10(decimals), divisor);
    }
  }

  lemma OtherDivisorFails(decimals: nat, divisor: nat) returns (value: nat)
    requires 0 < divisor != Pow10(decimals)
    ensures !PrintsTruly(value, decimals, divisor)
  {
    value := Witness(decimals) * divisor;
    MultiplePrints(Witness(decimals), decimals, divisor);
    WitnessDenies(decimals, divisor);
  }

  ghost predicate AlwaysTruly(decimals: nat, divisor: nat)
    requires divisor > 0
  {
    forall value: nat :: PrintsTruly(value, decimals, divisor)
  }

  lemma PowerAlwaysTruly(decimals: nat, divisor: nat)
    requires divisor == Pow10(decimals)
    ensures AlwaysTruly(decimals, divisor)
  {
    forall value: nat ensures PrintsTruly(value, decimals, divisor) { PowerPrintsTruly(value, decimals, divisor); }
  }

  lemma OtherNotAlwaysTruly(decimals: nat, divisor: nat)
    requires 0 < divisor != Pow10(decimals)
    ensures !AlwaysTruly(decimals, divisor)
  {
    var value := OtherDivisorFails(decimals, divisor);
    assert !PrintsTruly(value, decimals, divisor);
  }

  /** Every balance is printed truly exactly when the divisor is the power of ten. */
  lemma PrintedValueIff(decimals: nat, divisor: nat)
    requires divisor > 0
    ensures AlwaysTruly(decimals, divisor) <==> divisor == Pow10(decimals)
  {
    if divisor == Pow10(decimals) { PowerAlwaysTruly(decimals, divisor); } else { OtherNotAlwaysTruly(decimals, divisor); }
  }

  // ---------------------------------------------------------------------------
  // Order
  // ---------------------------------------------------------------------------

  ghost predicate InOrder(a: nat, b: nat, decimals: nat, divisor: nat)
    requires divisor > 0
  {
    var p, q := FormatBalance(a, decimals, divisor), FormatBalance(b, decimals, divisor);
    IsDecimal4(p) && IsDecimal4(q) && ReadBack(p) <= ReadBack(q)
  }

  lemma FloorsMonotone(p: int, a: int, q: int, b: int, e: int)
    requires a <= b && e > 0 && Floors(p, a, e) && Floors(q, b, e)
    ensures p <= q
  {
    if q < p {
      ScaleMonotone(q + 1, p, e);
      Scale(q, 1, e);
    }
  }

  lemma DenotesMonotone(p: nat, a: nat, q: nat, b: nat, width: nat)
    requires a <= b && Denotes(p, a, width) && Denotes(q, b, width)
    ensures p <= q
  {
    if width >= 4 { FloorsMonotone(p, a, q, b, Pow10(width - 4)); } else { ScaleMonotone(a, b, Pow10(4 - width)); }
  }

  lemma OneDenotes(width: nat)
    ensures Denotes(10000, Pow10(width), width)
  {
    assert Pow10(4) == 10000;
    if width >= 4 { Pow10Sum(4, width - 4); } else { Pow10Sum(width, 4 - width); }
  }

  lemma QuotientMonotone(a: nat, b: nat, d: nat)
    requires a <= b && d > 0
    ensures Quotient(a, d) <= Quotient(b, d)
    ensures Quotient(a, d) == Quotient(b, d) ==> Remainder(a, d) <= Remainder(b, d)
  {
    DivideBack(a, d);
    DivideBack(b, d);
    if Quotient(b, d) < Quotient(a, d) {
      ScaleMonotone(Quotient(b, d) + 1, Quotient(a, d), d);
      Scale(Quotient(b, d), 1, d);
    }
  }

  lemma SmallDivisorKeepsOrder(a: nat, b: nat, decimals: nat, divisor: nat)
    requires a <= b && 0 < divisor <= Pow10(Width(decimals))
    ensures InOrder(a, b, decimals, divisor)
  {
    ZeroPrints();
    if b > 0 { NonzeroPrints(b, decimals, divisor); }
    if a > 0 {
      NonzeroPrints(a, decimals, divisor);
      var width := Width(decimals);
      var ra, rb := Remainder(a, divisor), Remainder(b, divisor);
      var xa, xb := TenThousandths(PrintedFraction(ra, decimals)), TenThousandths(PrintedFraction(rb, decimals));
      FractionReads(ra, decimals);
      FractionReads(rb, decimals);
      QuotientMonotone(a, b, divisor);
      OneDenotes(width);
      DenotesMonotone(xa, ra, 10000, Pow10(width), width);
      if Quotient(a, divisor) == Quotient(b, divisor) { DenotesMonotone(xa, ra, xb, rb, width); }
    }
  }

  lemma {:induction false} DigitsFill(n: nat, width: nat)
    requires n >= Pow10(width)
    ensures |Digits(n)| > width
  {
    if width == 0 {
    } else {
      DigitsFill(n / 10, width - 1);
    }
  }

  lemma SmallQuotient(x: nat, d: nat)
    requires x < d
    ensures Quotient(x, d) == 0 && Remainder(x, d) == x
  {
  }

  lemma RemainderPrints(x: nat, decimals: nat, divisor: nat)
    requires 0 < x < divisor
    ensures IsDecimal4(FormatBalance(x, decimals, divisor))
    ensures ReadBack(FormatBalance(x, decimals, divisor)) == TenThousandths(PrintedFraction(x, decimals))
  {
    SmallQuotient(x, divisor);
    NonzeroPrints(x, decimals, divisor);
  }

  lemma SamePadding(s: string, width: nat, width': nat)
    requires |s| >= width && |s| >= width'
    ensures PadStart(s, width) == PadStart(s, width')
  {
  }

  /** One unit beyond the width: a remainder with one digit too many is cut as if it were ten
      times smaller. */
  lemma BeyondWidth(decimals: nat, b: nat)
    requires b == Pow10(Width(decimals))
    ensures b >= 10
    ensures TenThousandths(PrintedFraction(b - 1, decimals)) > TenThousandths(PrintedFraction(b, decimals))
  {
    var width := Width(decimals);
    FractionReads(b - 1, decimals);
    Nines(TenThousandths(PrintedFraction(b - 1, decimals)), width);
    CutLikeWider(decimals, b);
    Tens(TenThousandths(PrintedFraction(b, decimals)), width);
  }

  lemma CutLikeWider(decimals: nat, b: nat)
    requires b == Pow10(Width(decimals))
    ensures Denotes(TenThousandths(PrintedFraction(b, decimals)), b, Width(decimals) + 1)
  {
    var width := Width(decimals);
    assert b < Pow10(width + 1);
    DigitsFill(b, width);
    SamePadding(Digits(b), decimals, width + 1);
    FractionReads(b, width + 1);
  }

  lemma LargeDivisorBreaksOrder(decimals: nat, divisor: nat, b: nat)
    requires b == Pow10(Width(decimals)) && divisor > b
    ensures b > 0 && !InOrder(b - 1, b, decimals, divisor)
  {
    BeyondWidth(decimals, b);
    RemainderPrints(b - 1, decimals, divisor);
    RemainderPrints(b, decimals, divisor);
  }

  lemma SmallPowers()
    ensures Pow10(0) == 1 && Pow10(1) == 10 && Pow10(2) == 100 && Pow10(3) == 1000 && Pow10(4) == 10000
  {
  }

  lemma FloorIs(x: int, q: int, units: int, e: int)
    requires Floors(x, units, e) && q * e <= units < q * e + e && e > 0
    ensures x == q
  {
    FloorsMonotone(x, units, q, units, e);
    FloorsMonotone(q, units, x, units, e);
  }

  lemma Nines(x: nat, width: nat)
    requires width > 0 && Denotes(x, Pow10(width) - 1, width)
    ensures x >= 9000
  {
    SmallPowers();
    if width >= 4 {
      Pow10Sum(4, width - 4);
      FloorIs(x, 9999, Pow10(width) - 1, Pow10(width - 4));
    }
  }

  lemma Tens(x: nat, width: nat)
    requires width > 0 && Denotes(x, Pow10(width), width + 1)
    ensures x == 1000
  {
    SmallPowers();
    if width >= 4 {
      Pow10Sum(3, width - 3);
      FloorIs(x, 1000, Pow10(width), Pow10(width - 3));
    }
  }

  ghost predicate KeepsOrder(decimals: nat, divisor: nat)
    requires divisor > 0
  {
    forall a: nat, b: nat :: a <= b ==> InOrder(a, b, decimals, divisor)
  }

  /** Printing is monotone exactly when no remainder has more digits than the token has decimals. */
  lemma PrintingMonotoneIff(decimals: nat, divisor: nat)
    requires divisor > 0
    ensures KeepsOrder(decimals, divisor) <==> divisor <= Pow10(Width(decimals))
  {
    if divisor <= Pow10(Width(decimals)) {
      forall a: nat, b: nat | a <= b ensures InOrder(a, b, decimals, divisor) {
        SmallDivisorKeepsOrder(a, b, decimals, divisor);
      }
    } else {
      LargeDivisorBreaksOrder(decimals, divisor, Pow10(Width(decimals)));
    }
  }

  /** Canonical form, for every divisor: a nonzero balance has no superfluous zeros on either side,
      so that "0.00" stands for zero and nothing else. */
  lemma PrintedCanonically(value: nat, decimals: nat, divisor: nat)
    requires divisor > 0
    ensures IsDecimal4(FormatBalance(value, decimals, divisor))
    ensures value > 0 ==>
      var s := FormatBalance(value, decimals, divisor);
      && (FracPart(s) != "" ==> FracPart(s)[|FracPart(s)| - 1] != '0')
      && (WholePart(s) == "0" || (WholePart(s) != "" && WholePart(s)[0] != '0'))
    ensures FormatBalance(value, decimals, divisor) == "0.00" <==> value == 0
  {
    ZeroPrints();
    if value > 0 {
      DigitsRead(Quotient(value, divisor));
      NonzeroPrints(value, decimals, divisor);
    }
  }

  // ---------------------------------------------------------------------------
  // Which powers of ten are doubles
  // ---------------------------------------------------------------------------

  function Pow(b: nat, n: nat): (p: nat)
    ensures b > 0 ==> p > 0
  {
    if n == 0 then 1 else b * Pow(b, n - 1)
  }

  const MANTISSAS := 0x20_0000_0000_0000  // 2^53

  function Shift(m: nat, k: nat): nat { m * Pow(2, k) }

  /** The whole numbers that a double can hold, apart from its upper end. */
  ghost predicate IsDouble(n: nat) {
    exists m: nat, k: nat :: m < MANTISSAS && n == Shift(m, k)
  }

  lemma TimesTen(x: int, y: int)
    ensures 10 * (x * y) == (5 * x) * (2 * y)
  {
    Scale(5, x, 2 * y);
    Scale(x, 2, y);
  }

  lemma FiveTimesOdd(x: int)
    requires x % 2 == 1
    ensures (5 * x) % 2 == 1
  {
  }

  lemma {:induction false} FivesAreOdd(n: nat)
    ensures Pow(5, n) % 2 == 1
  {
    if n == 0 {
    } else {
      FivesAreOdd(n - 1);
      FiveTimesOdd(Pow(5, n - 1));
    }
  }

  lemma {:induction false} FivesAndTwos(n: nat)
    ensures Pow10(n) == Pow(5, n) * Pow(2, n)
  {
    if n == 0 {
    } else {
      FivesAndTwos(n - 1);
      TimesTen(Pow(5, n - 1), Pow(2, n - 1));
    }
  }

  lemma {:induction false} PowSum(b: nat, m: nat, n: nat)
    ensures Pow(b, m + n) == Pow(b, m) * Pow(b, n)
  {
    if m == 0 {
    } else {
      PowSum(b, m - 1, n);
      Scale(b, Pow(b, m - 1), Pow(b, n));
    }
  }

  lemma FivesGrow(m: nat, n: nat)
    requires m <= n
    ensures Pow(5, m) <= Pow(5, n)
  {
    PowSum(5, n - m, m);
    ScaleMonotone(1, Pow(5, n - m), Pow(5, m));
  }

  lemma FiveTo22()
    ensures Pow(5, 22) < MANTISSAS < Pow(5, 23)
  {
    assert Pow(5, 6) == 15625;
    PowSum(5, 6, 5);
    assert Pow(5, 5) == 3125;
    assert Pow(5, 11) == 48828125;
    PowSum(5, 11, 11);
  }

  lemma MantissaHoldsFives(n: nat, m: nat, k: nat)
    requires Pow10(n) == Shift(m, k)
    ensures m >= Pow(5, n)
  {
    FivesAndTwos(n);
    FivesAreOdd(n);
    if k <= n {
      PowSum(2, n - k, k);
      Scale(Pow(5, n), Pow(2, n - k), Pow(2, k));
      CancelRight(m, Pow(5, n) * Pow(2, n - k), Pow(2, k));
      ScaleMonotone(1, Pow(2, n - k), Pow(5, n));
    } else {
      PowSum(2, k - n, n);
      Scale(m, Pow(2, k - n), Pow(2, n));
      CancelRight(m * Pow(2, k - n), Pow(5, n), Pow(2, n));
      Scale(m, 2, Pow(2, k - n - 1));
    }
  }

  lemma PowerIsDoubleIff(decimals: nat)
    ensures IsDouble(Pow10(decimals)) <==> decimals <= 22
  {
    FiveTo22();
    FivesAndTwos(decimals);
    if decimals <= 22 {
      FivesGrow(decimals, 22);
      assert Pow10(decimals) == Shift(Pow(5, decimals), decimals);
    } else {
      FivesGrow(23, decimals);
      forall m: nat, k: nat | Pow10(decimals) == Shift(m, k) ensures m >= MANTISSAS {
        MantissaHoldsFives(decimals, m, k);
      }
    }
  }

  /** Up to 22 decimals a correctly rounded divisor prints every balance truly; beyond, no double
      does. */
  lemma DoublesPrintTrulyIff(decimals: nat)
    ensures (exists divisor: nat :: divisor > 0 && IsDouble(divisor) && AlwaysTruly(decimals, divisor)) <==> decimals <= 22
  {
    PowerIsDoubleIff(decimals);
    PrintedValueIff(decimals, Pow10(decimals));
    forall divisor: nat | divisor > 0 && AlwaysTruly(decimals, divisor) ensures divisor == Pow10(decimals) {
      PrintedValueIff(decimals, divisor);
    }
  }
}
