// Numbers, addresses and spaces in text that no printer wrote.
module TextLaws {
  // The readers skip spaces, take a sign, stop at the first character that does not belong to the
  // number, and fail on what is too large. The reader of addresses takes what is printed only.

  import opened Arithmetic
  import opened Text
  import opened PacketTime

  // ----- numbers -----

  predicate Spaces(s: string) { forall k :: 0 <= k < |s| ==> s[k] in {' ', '\t', '\n', '\U{000B}', '\U{000C}', '\r'} }

  predicate NoDigitFirst(s: string) { s == "" || !('0' <= s[0] <= '9') }

  function Signed(sign: string, n: nat): (v: int) { if sign == "-" then 0 - n else n }

  lemma {:induction false} SpacesAreSkipped(spaces: string, rest: string)
    requires Spaces(spaces) && (rest == "" || rest[0] !in {' ', '\t', '\n', '\U{000B}', '\U{000C}', '\r'})
    ensures SkipSpaces(spaces + rest) == rest
  {
    if spaces == "" {
      assert spaces + rest == rest;
    } else {
      assert (spaces + rest)[1..] == spaces[1..] + rest;
      SpacesAreSkipped(spaces[1..], rest);
    }
  }

  lemma SignedReads(spaces: string, sign: string, n: nat, tail: string)
    requires Spaces(spaces) && sign in {"", "+", "-"} && NoDigitFirst(tail)
    ensures SignedNumber(spaces + (sign + (Dec(n) + tail))) == Some(Signed(sign, n))
  {
    hide Value, LeadingDigits, SkipSpaces;
    var u := Dec(n) + tail;
    var t := sign + u;
    assert u[0] == Dec(n)[0];
    SpacesAreSkipped(spaces, t);
    LeadingDigitsOfDigits(Dec(n), tail);
    ValueOfDec(n);
    if sign == "" {
      assert t == u;
    } else {
      assert t[0] == sign[0] && t[1..] == u;
    }
  }

  /** What is read of a number with spaces in front, a sign and something behind: a signed 32-bit
      number, or one modulo 2^64, and nothing if it does not fit. */
  lemma NumbersAreRead(spaces: string, sign: string, n: nat, tail: string)
    requires Spaces(spaces) && sign in {"", "+", "-"} && NoDigitFirst(tail)
    ensures var s, v := spaces + (sign + (Dec(n) + tail)), Signed(sign, n);
            && StoI(s) == (if -2147483648 <= v <= 2147483647 then Some(v) else None)
            && StoU(s) == (if n >= 18446744073709551616 then None
                           else if v >= 0 then Some(v) else Some(18446744073709551616 + v))
  {
    hide SignedNumber;
    SignedReads(spaces, sign, n, tail);
    var v := Signed(sign, n);
    if v < 0 && n < 18446744073709551616 {
      Quotient(v, 18446744073709551616, -1, 18446744073709551616 + v);
    }
  }

  /** Without a digit behind spaces and sign there is no number. */
  lemma NoNumberIsRead(spaces: string, sign: string, tail: string)
    requires Spaces(spaces) && sign in {"", "+", "-"} && NoDigitFirst(tail)
    requires sign == "" ==> tail == "" || tail[0] !in "+- \t\n\U{000B}\U{000C}\r"
    ensures StoI(spaces + (sign + tail)) == None && StoU(spaces + (sign + tail)) == None
  {
    var t := sign + tail;
    if sign == "" {
      assert t == tail;
    } else {
      assert t[0] == sign[0] && t[1..] == tail;
    }
    SpacesAreSkipped(spaces, t);
    LeadingDigitsOfDigits("", tail);
    assert "" + tail == tail;
  }

  /** The same for decimals, with digits in front of the point and perhaps some behind it. */
  lemma DecimalsAreRead(spaces: string, sign: string, whole: string, fraction: string, tail: string)
    requires Spaces(spaces) && sign in {"", "+", "-"} && Digits(whole) && Digits(fraction) && whole != ""
    requires NoDigitFirst(tail)
    ensures Digits(whole + fraction)
    ensures StoD(spaces + (sign + (whole + ("." + (fraction + tail)))))
            == Some(Decimal(Signed(sign, Value(whole + fraction)), |fraction|))
  {
    hide Value, LeadingDigits, SkipSpaces;
    var point := "." + (fraction + tail);
    DecimalParts(spaces, sign, whole, point);
    LeadingDigitsOfDigits(fraction, tail);
    assert point[1..] == fraction + tail;
  }

  lemma WholeDecimalsAreRead(spaces: string, sign: string, whole: string, tail: string)
    requires Spaces(spaces) && sign in {"", "+", "-"} && Digits(whole) && whole != ""
    requires NoDigitFirst(tail) && (tail == "" || tail[0] != '.')
    ensures StoD(spaces + (sign + (whole + tail))) == Some(Decimal(Signed(sign, Value(whole)), 0))
  {
    hide Value, LeadingDigits, SkipSpaces;
    DecimalParts(spaces, sign, whole, tail);
    assert whole + "" == whole;
  }

  lemma DecimalParts(spaces: string, sign: string, whole: string, rest: string)
    requires Spaces(spaces) && sign in {"", "+", "-"} && Digits(whole) && whole != "" && NoDigitFirst(rest)
    ensures var t := SkipSpaces(spaces + (sign + (whole + rest)));
            && t == sign + (whole + rest) && t != "" && (t[0] in "+-" <==> sign != "") && (t[0] == '-' <==> sign == "-")
            && (if t[0] in "+-" then t[1..] else t) == whole + rest
            && LeadingDigits(whole + rest) == whole && (whole + rest)[|whole|..] == rest
  {
    var t := sign + (whole + rest);
    assert (whole + rest)[0] == whole[0];
    if sign == "" {
      assert t == whole + rest;
    } else {
      assert t[0] == sign[0] && t[1..] == whole + rest;
    }
    SpacesAreSkipped(spaces, t);
    LeadingDigitsOfDigits(whole, rest);
  }

  // ----- addresses -----

  lemma {:induction false} DecOfValue(ds: string)
    requires Digits(ds) && ds != "" && (|ds| > 1 ==> ds[0] != '0')
    ensures Dec(Value(ds)) == ds
    ensures |ds| > 1 ==> Value(ds) >= 10
  {
    var n := |ds| - 1;
    var d := ds[n] as int - '0' as int;
    assert ds == ds[..n] + [ds[n]];
    if n == 0 {
      assert ds[..0] == "" && Value(ds) == d && ds == [DigitOf(d)];
    } else {
      assert ds[..n][0] == ds[0];
      DecOfValue(ds[..n]);
      FirstDigit(ds[..n]);
      Quotient(Value(ds), 10, Value(ds[..n]), d);
    }
  }

  lemma {:induction false} FirstDigit(ds: string)
    requires Digits(ds) && ds != "" && ds[0] != '0'
    ensures Value(ds) >= 1
  {
    var n := |ds| - 1;
    if n > 0 {
      assert ds[..n][0] == ds[0];
      FirstDigit(ds[..n]);
    }
  }

  lemma {:induction false} JoinSplit(s: string, sep: char)
    ensures Join(Split(s, [sep]), sep) == s
  {
    if s != "" {
      var rest := Split(s[1..], [sep]);
      JoinSplit(s[1..], sep);
      var f := Split(s, [sep]);
      assert s == [s[0]] + s[1..];
      if s[0] == sep {
        assert f[1..] == rest;
      } else {
        assert f[1..] == rest[1..];
        assert |rest| > 1 ==> Join(rest, sep) == rest[0] + [sep] + Join(rest[1..], sep);
      }
    }
  }

  /** The strict reader takes a text for an address exactly if it is the one that is printed for
      that address. */
  lemma AddressesExactly(s: string, ip: uint32)
    ensures ParseDotted(s) == Some(ip) <==> s == Dotted(ip)
  {
    hide Split, Join, Dec, Value;
    DottedRoundTrip(ip);
    if ParseDotted(s) == Some(ip) {
      var f := Split(s, ".");
      forall i | 0 <= i < 4
        ensures Dec(Value(f[i])) == f[i]
      {
        assert IsOctet(f[i]);
        DecOfValue(f[i]);
      }
      JoinSplit(s, '.');
      assert ['.'] == ".";
      FourOctets(Value(f[0]), Value(f[1]), Value(f[2]), Value(f[3]), ip);
      assert f == [f[0], f[1], f[2], f[3]];
    }
  }

  lemma FourOctets(a: uint8, b: uint8, c: uint8, d: uint8, ip: uint32)
    requires ip == ((a * 0x100 + b) * 0x100 + c) * 0x100 + d
    ensures Octet(ip, 0) == a && Octet(ip, 1) == b && Octet(ip, 2) == c && Octet(ip, 3) == d
  {
    var ab, abc := a * 0x100 + b, (a * 0x100 + b) * 0x100 + c;
    Quotient(ab, 0x100, a, b);
    Quotient(abc, 0x100, ab, c);
    Quotient(ip, 0x100, abc, d);
    Quotient(ip, 0x1_0000, ab, c * 0x100 + d);
    Quotient(ip, 0x100_0000, a, (b * 0x100 + c) * 0x100 + d);
  }

  /** Multicast addresses are those from 224.0.0.0 to 239.255.255.255. */
  lemma MulticastExactly(ip: uint32)
    ensures Multicast(ip) <==> 224 <= ip / 0x100_0000 <= 239
  {
  }

  // ----- spaces -----

  /** Trimming takes the spaces off both ends and nothing else. */
  lemma TrimExactly(a: string, t: string, b: string)
    requires Spaces(a) && Spaces(b) && t != ""
    requires !Spaces([t[0]]) && !Spaces([t[|t| - 1]])
    ensures Trim(a + (t + b)) == t
  {
    assert [t[0]][0] == t[0] && [t[|t| - 1]][0] == t[|t| - 1];
    assert (t + b)[0] == t[0];
    SpacesAreSkipped(a, t + b);
    TrimmedRight(t, b);
  }

  lemma {:induction false} TrimmedRight(t: string, b: string)
    requires Spaces(b) && t != "" && !Spaces([t[|t| - 1]])
    ensures TrimRight(t + b) == t
  {
    assert [t[|t| - 1]][0] == t[|t| - 1];
    if b == "" {
      assert t + b == t;
    } else {
      assert (t + b)[..|t + b| - 1] == t + b[..|b| - 1];
      TrimmedRight(t, b[..|b| - 1]);
    }
  }
}
