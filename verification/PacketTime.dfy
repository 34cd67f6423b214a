// The packet time of a description.
module PacketTime {
  // Samples per packet are printed as milliseconds with twelve decimals, stripped of trailing
  // zeros, and read back by the parser. Arithmetic is exact; rounding to twelve decimals is to
  // the nearest, ties to even.

  import opened Arithmetic
  import opened Text

  const DECIMALS := 12
  const UNIT := 1_000_000_000_000

  function Pow10(k: nat): (p: nat)
    ensures p > 0
  {
    if k == 0 then 1 else 10 * Pow10(k - 1)
  }

  lemma {:induction false} Pow10Sum(a: nat, b: nat)
    ensures Pow10(a + b) == Pow10(a) * Pow10(b)
  {
    if a > 0 {
      Pow10Sum(a - 1, b);
      assert a + b - 1 == (a - 1) + b;
      assert 10 * (Pow10(a - 1) * Pow10(b)) == (10 * Pow10(a - 1)) * Pow10(b);
    }
  }

  // ----- printing -----

  function RoundHalfEven(num: nat, den: nat): (q: nat)
    requires den > 0
  {
    var q := num / den;
    var twice := 2 * (num % den);
    if twice > den || (twice == den && q % 2 == 1) then q + 1 else q
  }

  /** `k` digits, with leading zeros. */
  function Pad(v: nat, k: nat): (s: string)
    ensures |s| == k && Digits(s)
  {
    if k == 0 then "" else Pad(v / 10, k - 1) + [DigitOf(v % 10)]
  }

  function Strip(s: string): (r: string)
    ensures r <= s
  {
    if s != "" && s[|s| - 1] in "0." then Strip(s[..|s| - 1]) else s
  }

  /** The packet time in units of 10^-12 ms. */
  function Ticks(samples: uint32, rate: uint32): (q: nat)
    requires rate > 0
  {
    RoundHalfEven(samples * 1000 * UNIT, rate)
  }

  function PrintTicks(q: nat): (text: string) {
    Strip(Dec(q / UNIT) + "." + Pad(q % UNIT, DECIMALS))
  }

  function Ptime(samples: uint32, rate: uint32): (text: string)
    requires rate > 0
  {
    PrintTicks(Ticks(samples, rate))
  }

  // ----- reading -----

  /** mantissa / 10^places */
  datatype Decimal = Decimal(mantissa: int, places: nat)

  /** std::stod on plain decimals; None where it throws. */
  function StoD(s: string): (r: Option<Decimal>) {
    var t := SkipSpaces(s);
    var u := if t != "" && t[0] in "+-" then t[1..] else t;
    var whole := LeadingDigits(u);
    var rest := u[|whole|..];
    var fraction := if rest != "" && rest[0] == '.' then LeadingDigits(rest[1..]) else "";
    if whole + fraction == "" then None
    else
      var m: int := Value(whole + fraction);
      Some(Decimal(if t[0] == '-' then -m else m, |fraction|))
  }

  /** rate * packet time / 1000, truncated to an unsigned 32-bit number. */
  function SamplesOf(d: Decimal, rate: uint32): (n: uint32) {
    (rate * d.mantissa / (1000 * Pow10(d.places))) % U32
  }

  // ----- the two together -----

  lemma RoundingIsClose(num: nat, den: nat)
    requires den > 0
    ensures 2 * num - den <= 2 * (RoundHalfEven(num, den) * den) <= 2 * num + den
  {
    var q, r := num / den, num % den;
    assert num == q * den + r;
    assert (q + 1) * den == q * den + den;
  }

  /** Rounding is to the nearest, and to the even one of two that are as near. */
  lemma RoundsToNearestEven(num: nat, den: nat)
    requires den > 0
    ensures var q := RoundHalfEven(num, den);
            && 2 * num - den <= 2 * (q * den) <= 2 * num + den
            && (2 * (q * den) == 2 * num - den || 2 * (q * den) == 2 * num + den ==> q % 2 == 0)
  {
    var k, r := num / den, num % den;
    RoundingIsClose(num, den);
    assert num == k * den + r;
    assert (k + 1) * den == k * den + den;
  }

  lemma {:induction false} ValueAppend(a: string, b: string)
    requires Digits(a) && Digits(b)
    ensures Digits(a + b) && Value(a + b) == Value(a) * Pow10(|b|) + Value(b)
  {
    if b == "" {
      assert a + b == a;
    } else {
      var b0 := b[..|b| - 1];
      ValueAppend(a, b0);
      assert (a + b)[..|a + b| - 1] == a + b0;
      assert 10 * (Value(a) * Pow10(|b0|)) == Value(a) * (10 * Pow10(|b0|));
    }
  }

  lemma {:induction false} ValueOfPad(v: nat, k: nat)
    requires v < Pow10(k)
    ensures Value(Pad(v, k)) == v
  {
    if k > 0 {
      ValueOfPad(v / 10, k - 1);
      assert Pad(v, k)[..k - 1] == Pad(v / 10, k - 1);
    }
  }

  lemma LastZero(fraction: string)
    requires Digits(fraction) && fraction != "" && fraction[|fraction| - 1] == '0'
    ensures Value(fraction) == 10 * Value(fraction[..|fraction| - 1])
  {
  }

  /** Stripping a fraction that is not zero removes zeros of the fraction only. */
  lemma {:induction false} StripFraction(whole: string, fraction: string) returns (kept: string)
    requires Digits(fraction) && Value(fraction) > 0
    ensures Digits(kept) && 0 < |kept| <= |fraction|
    ensures Strip(whole + "." + fraction) == whole + "." + kept
    ensures Value(fraction) == Value(kept) * Pow10(|fraction| - |kept|)
  {
    var s := whole + "." + fraction;
    var last := |fraction| - 1;
    assert s[|s| - 1] == fraction[last];
    if fraction[last] == '0' {
      assert s[..|s| - 1] == whole + "." + fraction[..last];
      LastZero(fraction);
      kept := StripFraction(whole, fraction[..last]);
      TenTimes(Value(kept), last - |kept|);
      assert |fraction| - |kept| == last - |kept| + 1;
    } else {
      kept := fraction;
    }
  }

  lemma TenTimes(v: nat, k: nat)
    ensures 10 * (v * Pow10(k)) == v * Pow10(k + 1)
  {
  }

  /** Stripping a zero fraction goes on into the whole part. */
  lemma {:induction false} StripZeros(whole: string, fraction: string)
    requires Digits(fraction) && Value(fraction) == 0
    ensures Strip(whole + "." + fraction) == Strip(whole)
  {
    var s := whole + "." + fraction;
    if fraction == "" {
      assert s == whole + ".";
      assert s[..|s| - 1] == whole;
    } else {
      var last := |fraction| - 1;
      assert s[|s| - 1] == fraction[last];
      assert s[..|s| - 1] == whole + "." + fraction[..last];
      StripZeros(whole, fraction[..last]);
    }
  }

  /** The whole part without its trailing zeros. */
  function WithoutZeros(n: nat): (m: nat) {
    if n > 0 && n % 10 == 0 then WithoutZeros(n / 10) else n
  }

  lemma {:induction false} StripWhole(n: nat)
    ensures Strip(Dec(n)) == if n == 0 then "" else Dec(WithoutZeros(n))
    ensures n > 0 ==> WithoutZeros(n) > 0
    ensures WithoutZeros(n) == n <==> n == 0 || n % 10 != 0
  {
    var s := Dec(n);
    if n >= 10 {
      assert s[|s| - 1] == DigitOf(n % 10) && s[..|s| - 1] == Dec(n / 10);
      if n % 10 == 0 {
        StripWhole(n / 10);
        SmallerWithoutZeros(n);
      }
    } else {
      assert s == [DigitOf(n)];
      assert s[..0] == "";
    }
  }

  lemma {:induction false} SmallerWithoutZeros(n: nat)
    ensures n > 0 && n % 10 == 0 ==> WithoutZeros(n) < n
  {
    if n > 0 && n % 10 == 0 {
      SmallerWithoutZeros(n / 10);
    }
  }

  lemma ReadWhole(n: nat)
    ensures StoD(Dec(n)) == Some(Decimal(n, 0))
  {
    var s := Dec(n);
    LeadingDigitsOfDigits(s, "");
    assert s + "" == s;
    assert SkipSpaces(s) == s && s[0] !in "+-";
    ValueOfDec(n);
  }

  lemma ReadDigits(whole: string, fraction: string)
    requires Digits(whole) && whole != "" && Digits(fraction)
    ensures StoD(whole + "." + fraction) == Some(Decimal(Value(whole + fraction), |fraction|))
  {
    var s := whole + "." + fraction;
    assert s == whole + ("." + fraction);
    LeadingDigitsOfDigits(whole, "." + fraction);
    LeadingDigitsOfDigits(fraction, "");
    assert fraction + "" == fraction && s[|whole|..] == "." + fraction;
    assert ("." + fraction)[1..] == fraction;
    assert s[0] == whole[0];
    assert SkipSpaces(s) == s && s[0] !in "+-";
  }

  lemma {:induction false} ReadPoint(n: nat, fraction: string)
    requires Digits(fraction)
    ensures StoD(Dec(n) + "." + fraction) == Some(Decimal(n * Pow10(|fraction|) + Value(fraction), |fraction|))
  {
    ReadDigits(Dec(n), fraction);
    ValueAppend(Dec(n), fraction);
    ValueOfDec(n);
  }

  /** What the parser sees of `q` ticks: everything, unless the time is a whole multiple of
      ten milliseconds, whose own zeros are lost; and nothing at all when it is zero. */
  function Seen(q: nat): (d: Option<Decimal>) {
    if q == 0 then None
    else if q % UNIT == 0 then Some(Decimal(WithoutZeros(q / UNIT), 0))
    else Some(Decimal(q, DECIMALS))
  }

  predicate SameNumber(a: Decimal, b: Decimal) {
    a.mantissa * Pow10(b.places) == b.mantissa * Pow10(a.places)
  }

  lemma Pow12()
    ensures Pow10(DECIMALS) == UNIT
  {
    assert Pow10(3) == 1000;
    Pow10Sum(3, 3); Pow10Sum(6, 6);
    assert Pow10(6) == 1_000_000;
  }

  lemma {:induction false} KeptFraction(whole: nat, fraction: string, k: nat, q: nat)
    requires Digits(fraction) && |fraction| == k && Value(fraction) > 0
    requires q == whole * Pow10(k) + Value(fraction)
    ensures var d := StoD(Strip(Dec(whole) + "." + fraction));
            d.Some? && SameNumber(d.value, Decimal(q, k))
  {
    var kept := StripFraction(Dec(whole), fraction);
    var v, p, r := Value(kept), Pow10(|kept|), Pow10(k - |kept|);
    assert Pow10(k) == p * r by { Pow10Sum(|kept|, k - |kept|); }
    assert (whole * p + v) * Pow10(k) == q * p by { Scale(whole, v, p, r, Pow10(k), q); }
    assert StoD(Dec(whole) + "." + kept) == Some(Decimal(whole * p + v, |kept|)) by { ReadPoint(whole, kept); }
  }

  lemma FractionIsSeen(q: nat)
    requires q % UNIT != 0
    ensures var d := StoD(PrintTicks(q)); d.Some? && SameNumber(d.value, Decimal(q, DECIMALS))
  {
    Pow12();
    ValueOfPad(q % UNIT, DECIMALS);
    KeptFraction(q / UNIT, Pad(q % UNIT, DECIMALS), DECIMALS, q);
  }

  lemma Scale(whole: nat, part: nat, p: nat, r: nat, unit: nat, q: nat)
    requires unit == p * r && q == whole * unit + part * r
    ensures (whole * p + part) * unit == q * p
  {
    var m := whole * p + part;
    assert m * unit == (m * r) * p;
    assert m * r == whole * unit + part * r by {
      assert (whole * p) * r == whole * (p * r);
    }
  }

  lemma WholeIsSeen(q: nat)
    requires q % UNIT == 0
    ensures StoD(PrintTicks(q)) == Seen(q)
  {
    var whole := q / UNIT;
    Pow12();
    ValueOfPad(0, DECIMALS);
    StripZeros(Dec(whole), Pad(0, DECIMALS));
    StripWhole(whole);
    if whole > 0 {
      ReadWhole(WithoutZeros(whole));
    } else {
      NoDigitsNoNumber();
    }
  }

  lemma NoDigitsNoNumber()
    ensures StoD("") == None
  {
  }

  /** The text is read back as the number `Seen` says. */
  lemma PtimeIsSeen(samples: uint32, rate: uint32)
    requires rate > 0
    ensures var q := Ticks(samples, rate); var d := StoD(Ptime(samples, rate));
            && (d.None? <==> Seen(q).None?)
            && (d.Some? ==> SameNumber(d.value, Seen(q).value))
  {
    var q := Ticks(samples, rate);
    if q % UNIT == 0 {
      WholeIsSeen(q);
    } else {
      FractionIsSeen(q);
    }
  }

  lemma DivideBySame(x: int, a: nat, b: nat)
    requires a > 0 && b > 0
    ensures a * b > 0 && (x * b) / (a * b) == x / a
  {
    var q, r := x / a, x % a;
    assert x == q * a + r && 0 <= r < a;
    assert x * b == q * (a * b) + r * b;
    assert 0 <= r * b < a * b;
    Quotient(x * b, a * b, q, r * b);
  }

  lemma SameQuotient(x: int, y: int, a: nat, b: nat)
    requires a > 0 && b > 0 && x * b == y * a
    ensures x / (1000 * a) == y / (1000 * b)
  {
    DivideBySame(x, 1000 * a, b);
    DivideBySame(y, 1000 * b, a);
    assert (1000 * a) * b == (1000 * b) * a;
  }

  lemma Scaled(rate: nat, m: int, p: nat, n: int, q: nat)
    requires m * p == n * q
    ensures rate * m * p == rate * n * q
  {
    assert rate * (m * p) == rate * m * p && rate * (n * q) == rate * n * q;
  }

  /** Equal numbers give equal sample counts. */
  lemma SamplesOfSame(a: Decimal, b: Decimal, rate: uint32)
    requires SameNumber(a, b)
    ensures SamplesOf(a, rate) == SamplesOf(b, rate)
  {
    hide Pow10;
    Scaled(rate, a.mantissa, Pow10(b.places), b.mantissa, Pow10(a.places));
    SameQuotient(rate * a.mantissa, rate * b.mantissa, Pow10(a.places), Pow10(b.places));
  }

  /** No packet of at least one sample is printed as zero. */
  lemma TicksArePositive(samples: uint32, rate: uint32)
    requires rate > 0
    ensures Ticks(samples, rate) == 0 <==> samples == 0
  {
    var num := samples * 1000 * UNIT;
    var q := num / rate;
    assert num == q * rate + num % rate;
    if samples > 0 {
      assert num >= 1000 * UNIT;
      assert q > 0;
    }
  }

  /** The sample count the parser ends up with, at the rate it has read. */
  function ReadAt(samples: uint32, printed: uint32, rate: uint32): (n: uint32)
    requires printed > 0 && samples > 0
  {
    TicksArePositive(samples, printed);
    SamplesOf(Seen(Ticks(samples, printed)).value, rate)
  }

  function ReadBack(samples: uint32, rate: uint32): (n: uint32)
    requires rate > 0 && samples > 0
  {
    ReadAt(samples, rate, rate)
  }

  /** The packet time is a whole multiple of ten milliseconds. */
  predicate WholeTens(samples: uint32, rate: uint32)
    requires rate > 0
  {
    samples * 100 % rate == 0
  }

  /** This shows in the printed ticks: rounding to twelve decimals cannot make or hide it. */
  lemma WholeTensInTicks(samples: uint32, rate: uint32)
    requires rate > 0
    ensures WholeTens(samples, rate) <==> Ticks(samples, rate) % (10 * UNIT) == 0
  {
    hide RoundHalfEven;
    var q, den := Ticks(samples, rate), 10 * UNIT;
    RoundingIsClose(samples * 1000 * UNIT, rate);
    if WholeTens(samples, rate) {
      var k := samples * 100 / rate;
      assert samples * 100 == k * rate;
      assert samples * 1000 * UNIT == den * (k * rate) == (den * k) * rate;
      ExactTicks(samples * 1000 * UNIT, rate, den * k);
      Quotient(q, den, k, 0);
    }
    if q % den == 0 {
      var m := q / den;
      assert q == den * m;
      assert q * rate == den * (m * rate);
      WithinHalf(m * rate, samples * 100, rate, den);
      Quotient(samples * 100, rate, m, 0);
    }
  }

  lemma ExactTicks(num: nat, rate: nat, q: nat)
    requires rate > 0 && num == q * rate
    ensures RoundHalfEven(num, rate) == q
  {
    Quotient(num, rate, q, 0);
  }

  /** Two multiples of a large unit that are close are the same. */
  lemma WithinHalf(a: int, b: int, rate: uint32, den: nat)
    requires den == 10 * UNIT && 2 * (den * b) - rate <= 2 * (den * a) <= 2 * (den * b) + rate
    ensures a == b
  {
    assert a > b ==> den * a >= den * b + den;
    assert a < b ==> den * a + den <= den * b;
  }

  /** Reading back gives the count or one less, and the count exactly when rounding to twelve
      decimals did not go down; unless the packet time is a whole multiple of ten
      milliseconds. */
  lemma PacketTimeBound(samples: uint32, rate: uint32)
    requires rate > 0 && samples > 0 && !WholeTens(samples, rate)
    ensures ReadBack(samples, rate) ==
            if Ticks(samples, rate) * rate >= samples * 1000 * UNIT then samples else samples - 1
  {
    hide Pow10, Seen, SameNumber, RoundHalfEven, WholeTens;
    var q := Ticks(samples, rate);
    WholeTensInTicks(samples, rate);
    TicksArePositive(samples, rate);
    RoundingIsClose(samples * 1000 * UNIT, rate);
    SeenIsTicks(q);
    Pow12();
    SamplesOfSame(Seen(q).value, Decimal(q, DECIMALS), rate);
    NearestCount(samples, rate, q);
  }

  lemma NearestCount(samples: uint32, rate: uint32, q: nat)
    requires samples > 0
    requires 2 * (samples * 1000 * UNIT) - rate <= 2 * (q * rate) <= 2 * (samples * 1000 * UNIT) + rate
    ensures rate * q / (1000 * UNIT) == if q * rate >= samples * 1000 * UNIT then samples else samples - 1
  {
    var num, den, x := samples * 1000 * UNIT, 1000 * UNIT, rate * q;
    assert x == q * rate;
    if x >= num {
      Quotient(x, den, samples, x - num);
    } else {
      Quotient(x, den, samples - 1, x - num + den);
    }
  }

  lemma SeenIsTicks(q: nat)
    requires q > 0 && q % (10 * UNIT) != 0
    ensures Seen(q).Some? && SameNumber(Seen(q).value, Decimal(q, DECIMALS))
  {
    Pow12();
    if q % UNIT == 0 {
      var whole := q / UNIT;
      assert q == whole * UNIT;
      StripWhole(whole);
      assert whole % 10 != 0;
    }
  }

  /** When the decimal is exact nothing is lost. */
  lemma ExactDecimalIsKept(samples: uint32, rate: uint32)
    requires rate > 0 && samples > 0 && !WholeTens(samples, rate)
    requires (samples * 1000 * UNIT) % rate == 0
    ensures ReadBack(samples, rate) == samples
  {
    var num := samples * 1000 * UNIT;
    assert num == (num / rate) * rate;
    PacketTimeBound(samples, rate);
  }

  /** The zeros that `WithoutZeros` takes off. */
  function TrailingZeros(n: nat): (k: nat) {
    if n > 0 && n % 10 == 0 then 1 + TrailingZeros(n / 10) else 0
  }

  lemma {:induction false} ZerosTakenOff(n: nat)
    ensures n == WithoutZeros(n) * Pow10(TrailingZeros(n))
  {
    if n > 0 && n % 10 == 0 {
      ZerosTakenOff(n / 10);
      TenTimes(WithoutZeros(n), TrailingZeros(n / 10));
    }
  }

  lemma WholeTicks(samples: uint32, rate: uint32)
    requires rate > 0 && WholeTens(samples, rate)
    ensures Ticks(samples, rate) == 10 * UNIT * (samples * 100 / rate)
  {
    var k := samples * 100 / rate;
    assert samples * 100 == k * rate;
    assert samples * 1000 * UNIT == 10 * UNIT * (k * rate) == (10 * UNIT * k) * rate;
    ExactTicks(samples * 1000 * UNIT, rate, 10 * UNIT * k);
  }

  /** The samples of a whole number of milliseconds. */
  function SamplesIn(ms: nat, rate: nat): (n: nat) { rate * ms / 1000 }

  lemma SmallerProduct(samples: nat, rate: nat, k: nat, m: nat, p: nat, d: nat)
    requires p > 0 && d == 10 * p && k == m * p && samples * 100 == k * rate
    ensures SamplesIn(m, rate) == samples / d
  {
    assert rate * m * d == samples * 1000 by {
      assert rate * m * d == 10 * ((m * p) * rate);
    }
    DivideBySame(rate * m, 1000, d);
    DivideBySame(samples, d, 1000);
  }

  lemma WholeTensSeen(samples: uint32, rate: uint32)
    requires rate > 0 && samples > 0 && WholeTens(samples, rate)
    ensures ReadBack(samples, rate) == SamplesIn(WithoutZeros(samples * 100 / rate), rate) % U32
  {
    hide RoundHalfEven, WholeTens, Ticks;
    var k, q := samples * 100 / rate, Ticks(samples, rate);
    TicksArePositive(samples, rate);
    WholeTicks(samples, rate);
    Quotient(q, UNIT, 10 * k, 0);
    TenfoldZeros(k);
  }

  /** A packet of ten times k milliseconds loses a power of ten: one for the ten and one for
      every trailing zero of k. At most a tenth of the samples is read back. */
  lemma WholeTensAreLost(samples: uint32, rate: uint32)
    requires rate > 0 && samples > 0 && WholeTens(samples, rate)
    ensures ReadBack(samples, rate) == samples / Pow10(TrailingZeros(samples * 100 / rate) + 1)
    ensures 10 * ReadBack(samples, rate) <= samples
  {
    hide WholeTens, ReadBack;
    var k := samples * 100 / rate;
    WholeTensSeen(samples, rate);
    WholeTensMultiple(samples, rate);
    TensAreLost(samples, rate, k);
  }

  lemma TensAreLost(samples: uint32, rate: nat, k: nat)
    requires samples * 100 == k * rate
    ensures var n := SamplesIn(WithoutZeros(k), rate) % U32;
            n == samples / Pow10(TrailingZeros(k) + 1) && 10 * n <= samples
  {
    hide SamplesIn, Pow10;
    var p, d := Pow10(TrailingZeros(k)), Pow10(TrailingZeros(k) + 1);
    ZerosTakenOff(k);
    NextPower(TrailingZeros(k));
    SmallerProduct(samples, rate, k, WithoutZeros(k), p, d);
    TenthAtMost(samples, d);
  }

  lemma NextPower(k: nat)
    ensures Pow10(k + 1) == 10 * Pow10(k)
  {
  }

  lemma TenfoldZeros(k: nat)
    requires k > 0
    ensures WithoutZeros(10 * k) == WithoutZeros(k)
  {
    assert 10 * k % 10 == 0 && 10 * k / 10 == k;
  }

  lemma WholeTensMultiple(samples: uint32, rate: uint32)
    requires rate > 0 && WholeTens(samples, rate)
    ensures samples * 100 == (samples * 100 / rate) * rate
  {
  }

  lemma TenthAtMost(n: nat, d: nat)
    requires d >= 10
    ensures 0 <= 10 * (n / d) <= n
  {
    var q := n / d;
    assert n == q * d + n % d;
    assert (d - 10) * q >= 0;
  }

  /** The bound of one lost sample holds exactly for the other packet times, and for the packet
      of a single sample, of which nothing is left either way. */
  lemma AtMostOneIsLost(samples: uint32, rate: uint32)
    requires rate > 0 && samples > 0
    ensures ReadBack(samples, rate) in {samples, samples - 1} <==> !WholeTens(samples, rate) || samples == 1
  {
    hide ReadBack, WholeTens;
    if WholeTens(samples, rate) {
      WholeTensAreLost(samples, rate);
    } else {
      PacketTimeBound(samples, rate);
    }
  }
}
