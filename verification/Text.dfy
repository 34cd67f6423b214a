// Character-level text: printing and reading numbers and addresses, cutting and splitting.
// The readers follow the C and Boost functions the daemon calls; what they do on text that
// no printer produced (signs, spaces, overflow) is part of them.
module Text {

  datatype Option<+T> = None | Some(value: T)

  const U32 := 0x1_0000_0000
  const U64 := 0x1_0000_0000_0000_0000

  type uint8 = x: int | 0 <= x < 0x100
  type uint16 = x: int | 0 <= x < 0x1_0000
  type uint32 = x: int | 0 <= x < 0x1_0000_0000

  // ----- decimal numbers -----

  /** An IPv4 multicast address. */
  predicate Multicast(ip: uint32) { 0xE000_0000 <= ip < 0xF000_0000 }

  predicate IsDigit(c: char) { '0' <= c <= '9' }

  predicate IsSpace(c: char) { c == ' ' || '\t' <= c <= '\r' }

  predicate Digits(s: string) { forall k :: 0 <= k < |s| ==> IsDigit(s[k]) }

  function DigitOf(d: nat): (c: char)
    requires d < 10
    ensures IsDigit(c) && c as int - '0' as int == d
  {
    ('0' as int + d) as char
  }

  /** What std::to_string and stream insertion print. */
  function Dec(n: nat): (s: string)
    ensures Digits(s) && |s| > 0 && (s[0] == '0' <==> n == 0) && (n == 0 ==> s == "0")
  {
    if n < 10 then [DigitOf(n)] else Dec(n / 10) + [DigitOf(n % 10)]
  }

  function Value(ds: string): (n: nat)
    requires Digits(ds)
  {
    if ds == "" then 0 else 10 * Value(ds[..|ds| - 1]) + (ds[|ds| - 1] as int - '0' as int)
  }

  lemma {:induction false} ValueOfDec(n: nat)
    ensures Value(Dec(n)) == n
  {
    var ds := Dec(n);
    if n >= 10 {
      ValueOfDec(n / 10);
      assert ds[..|ds| - 1] == Dec(n / 10);
    } else {
      assert ds[..|ds| - 1] == "";
    }
  }

  lemma {:induction false} DecLength(n: nat, k: nat, bound: nat)
    requires n < bound && (k, bound) in {(1, 10), (2, 100), (3, 1000)}
    ensures |Dec(n)| <= k
    decreases k
  {
    if k == 2 && n >= 10 { DecLength(n / 10, 1, 10); }
    if k == 3 && n >= 10 { DecLength(n / 10, 2, 100); }
  }

  /** The longest prefix of digits. */
  function LeadingDigits(s: string): (ds: string)
    ensures ds <= s && Digits(ds)
    ensures |ds| < |s| ==> !IsDigit(s[|ds|])
  {
    if s == "" || !IsDigit(s[0]) then ""
    else
      var rest := LeadingDigits(s[1..]);
      assert s == [s[0]] + s[1..];
      [s[0]] + rest
  }

  lemma {:induction false} LeadingDigitsOfDigits(ds: string, tail: string)
    requires Digits(ds) && (tail == "" || !IsDigit(tail[0]))
    ensures LeadingDigits(ds + tail) == ds
  {
    if ds != "" {
      assert (ds + tail)[1..] == ds[1..] + tail;
      LeadingDigitsOfDigits(ds[1..], tail);
    } else {
      assert ds + tail == tail;
    }
  }

  function SkipSpaces(s: string): (r: string)
    decreases |s|
  {
    if s != "" && IsSpace(s[0]) then SkipSpaces(s[1..]) else s
  }

  /** strtol and its relatives: spaces, a sign, digits; None when there is no number. */
  function SignedNumber(s: string): (r: Option<int>) {
    var t := SkipSpaces(s);
    var negative := t != "" && t[0] == '-';
    var u := if t != "" && t[0] in "+-" then t[1..] else t;
    var ds := LeadingDigits(u);
    if ds == "" then None else var n: int := Value(ds); Some(if negative then -n else n)
  }

  /** std::stoi; None where it throws. */
  function StoI(s: string): (r: Option<int>) {
    match SignedNumber(s)
    case None => None
    case Some(v) => if -0x8000_0000 <= v < 0x8000_0000 then Some(v) else None
  }

  /** std::stoul and std::stoull: a minus sign negates modulo 2^64. */
  function StoU(s: string): (r: Option<nat>)
    ensures r.Some? ==> r.value < U64
  {
    match SignedNumber(s)
    case None => None
    case Some(v) => if -U64 < v < U64 then Some(v % U64) else None
  }

  lemma NoSignNoSpace(s: string)
    requires s != "" && IsDigit(s[0])
    ensures SignedNumber(s) == Some(Value(LeadingDigits(s)))
  {
    assert SkipSpaces(s) == s && s[0] !in "+-";
  }

  lemma NumberOfDec(n: nat, tail: string)
    requires tail == "" || !IsDigit(tail[0])
    ensures SignedNumber(Dec(n) + tail) == Some(n)
  {
    assert (Dec(n) + tail)[0] == Dec(n)[0];
    NoSignNoSpace(Dec(n) + tail);
    LeadingDigitsOfDigits(Dec(n), tail);
    ValueOfDec(n);
  }

  lemma NumberInRange(s: string, n: nat)
    requires SignedNumber(s) == Some(n)
    ensures n < 0x8000_0000 ==> StoI(s) == Some(n)
    ensures n < U64 ==> StoU(s) == Some(n)
  {
  }

  lemma ReadDec(n: nat, tail: string)
    requires tail == "" || !IsDigit(tail[0])
    ensures n < 0x8000_0000 ==> StoI(Dec(n) + tail) == Some(n)
    ensures n < U64 ==> StoU(Dec(n) + tail) == Some(n)
    ensures tail == "" ==> Dec(n) + tail == Dec(n)
  {
    NumberOfDec(n, tail);
    NumberInRange(Dec(n) + tail, n);
  }

  // ----- splitting -----

  predicate Lacks(s: string, c: char) { forall k :: 0 <= k < |s| ==> s[k] != c }

  predicate LacksAll(s: string, seps: string) { forall k :: 0 <= k < |s| ==> s[k] !in seps }

  /** boost::split without token compression. */
  function Split(s: string, seps: string): (fields: seq<string>)
    ensures |fields| > 0
  {
    if s == "" then [""]
    else
      var rest := Split(s[1..], seps);
      if s[0] in seps then [""] + rest else [[s[0]] + rest[0]] + rest[1..]
  }

  lemma {:induction false} SplitOff(field: string, sep: char, tail: string, seps: string)
    requires LacksAll(field, seps) && sep in seps
    ensures Split(field + [sep] + tail, seps) == [field] + Split(tail, seps)
  {
    var s := field + [sep] + tail;
    if field == "" {
      assert s == [sep] + tail;
      assert s[1..] == tail;
    } else {
      assert s[1..] == field[1..] + [sep] + tail;
      SplitOff(field[1..], sep, tail, seps);
      assert [s[0]] + field[1..] == field;
    }
  }

  /** A separator cuts the fields in two. */
  lemma {:induction false} SplitApart(a: string, sep: char, b: string, seps: string)
    requires sep in seps
    ensures Split(a + [sep] + b, seps) == Split(a, seps) + Split(b, seps)
  {
    var s := a + [sep] + b;
    if a == "" {
      assert s == [sep] + b && s[1..] == b;
    } else {
      assert s[1..] == a[1..] + [sep] + b;
      SplitApart(a[1..], sep, b, seps);
      var x, y := Split(a[1..], seps), Split(b, seps);
      assert (x + y)[1..] == x[1..] + y && (x + y)[0] == x[0];
      assert s[0] == a[0] && Split(a[1..] + [sep] + b, seps) == x + y;
    }
  }

  /** The first field is everything exactly when there is no separator. */
  lemma {:induction false} FirstField(s: string, seps: string)
    ensures |Split(s, seps)[0]| <= |s|
    ensures Split(s, seps)[0] == s <==> LacksAll(s, seps)
  {
    if s != "" {
      FirstField(s[1..], seps);
      assert s == [s[0]] + s[1..];
      assert LacksAll(s, seps) <==> s[0] !in seps && LacksAll(s[1..], seps);
      if s[0] !in seps {
        assert Split(s, seps)[0][1..] == Split(s[1..], seps)[0];
      }
    }
  }

  lemma {:induction false} SplitLast(field: string, seps: string)
    requires LacksAll(field, seps)
    ensures Split(field, seps) == [field]
  {
    if field != "" {
      SplitLast(field[1..], seps);
      assert [field[0]] + field[1..] == field;
    }
  }

  /** The fields with one `sep` between neighbours. */
  function Join(fields: seq<string>, sep: char): (s: string) {
    if fields == [] then "" else if |fields| == 1 then fields[0] else fields[0] + [sep] + Join(fields[1..], sep)
  }

  lemma {:induction false} SplitJoin(fields: seq<string>, sep: char, seps: string)
    requires fields != [] && sep in seps
    requires forall k :: 0 <= k < |fields| ==> LacksAll(fields[k], seps)
    ensures Split(Join(fields, sep), seps) == fields
  {
    assert LacksAll(fields[0], seps);
    if |fields| == 1 {
      SplitLast(fields[0], seps);
    } else {
      SplitOff(fields[0], sep, Join(fields[1..], sep), seps);
      SplitJoin(fields[1..], sep, seps);
    }
  }

  /** No newline inside and no space at the end. */
  predicate Tidy(s: string) {
    Lacks(s, '\n') && (s != "" ==> !IsSpace(s[|s| - 1]))
  }

  lemma {:induction false} TidyJoin(fields: seq<string>, sep: char)
    requires sep != '\n'
    requires fields != [] && fields[|fields| - 1] != ""
    requires forall k :: 0 <= k < |fields| ==> Tidy(fields[k])
    ensures Tidy(Join(fields, sep)) && Join(fields, sep) != ""
  {
    assert Tidy(fields[0]);
    if |fields| > 1 {
      TidyJoin(fields[1..], sep);
      TidyCat(fields[0] + [sep], Join(fields[1..], sep));
    }
  }

  lemma TidyCat(a: string, b: string)
    requires Lacks(a, '\n') && Tidy(b) && b != ""
    ensures Tidy(a + b)
  {
  }

  lemma TidyDec(n: nat)
    ensures Tidy(Dec(n)) && LacksAll(Dec(n), " /:.")
  {
  }

  /** The position of the first `c`, or |s|. */
  function IndexOf(s: string, c: char): (i: nat)
    ensures i <= |s| && Lacks(s[..i], c) && (i < |s| ==> s[i] == c)
  {
    if s == "" || s[0] == c then 0
    else
      var i := 1 + IndexOf(s[1..], c);
      assert s[..i] == [s[0]] + s[1..][..i - 1];
      i
  }

  lemma IndexAfter(a: string, c: char, b: string)
    requires Lacks(a, c)
    ensures IndexOf(a + [c] + b, c) == |a|
    ensures (a + [c] + b)[..|a|] == a && (a + [c] + b)[|a| + 1..] == b
  {
    var s := a + [c] + b;
    var i := IndexOf(s, c);
    assert s[|a|] == c && forall k :: 0 <= k < |a| ==> s[k] == a[k];
  }

  // ----- lines -----

  /** Each line followed by a newline. */
  function Unlines(lines: seq<string>): (text: string) {
    if lines == [] then "" else lines[0] + "\n" + Unlines(lines[1..])
  }

  /** What repeated std::getline delivers. */
  function GetLines(text: string): (lines: seq<string>)
    decreases |text|
  {
    if text == "" then []
    else
      var i := IndexOf(text, '\n');
      if i == |text| then [text] else [text[..i]] + GetLines(text[i + 1..])
  }

  predicate OneLiners(lines: seq<string>) {
    forall k :: 0 <= k < |lines| ==> Lacks(lines[k], '\n')
  }

  lemma {:induction false} LinesOfUnlines(lines: seq<string>)
    requires OneLiners(lines)
    ensures GetLines(Unlines(lines)) == lines
  {
    if lines != [] {
      assert Lacks(lines[0], '\n');
      IndexAfter(lines[0], '\n', Unlines(lines[1..]));
      LinesOfUnlines(lines[1..]);
    }
  }

  lemma {:induction false} UnlinesAppend(a: seq<string>, b: seq<string>)
    ensures Unlines(a + b) == Unlines(a) + Unlines(b)
  {
    if a == [] {
      assert a + b == b;
    } else {
      assert (a + b)[1..] == a[1..] + b;
      UnlinesAppend(a[1..], b);
      assert Unlines(a + b) == a[0] + "\n" + (Unlines(a[1..]) + Unlines(b));
    }
  }

  /** boost::trim. */
  function Trim(s: string): (t: string) {
    TrimRight(SkipSpaces(s))
  }

  function TrimRight(s: string): (t: string) {
    if s != "" && IsSpace(s[|s| - 1]) then TrimRight(s[..|s| - 1]) else s
  }

  /** Trimming on the right keeps a prefix that ends in a visible character. */
  lemma TrimKeepsHead(s: string, n: nat)
    requires 0 < n <= |s| && !IsSpace(s[0]) && !IsSpace(s[n - 1])
    ensures |Trim(s)| >= n && Trim(s)[..n] == s[..n]
  {
    TrimRightKeepsHead(s, n);
  }

  lemma {:induction false} TrimRightKeepsHead(s: string, n: nat)
    requires 0 < n <= |s| && !IsSpace(s[n - 1])
    ensures |TrimRight(s)| >= n && TrimRight(s)[..n] == s[..n]
  {
    if IsSpace(s[|s| - 1]) {
      TrimRightKeepsHead(s[..|s| - 1], n);
    }
  }

  // ----- dotted quads -----

  function Octet(ip: uint32, k: nat): (b: uint8)
    requires k < 4
  {
    match k
    case 0 => ip / 0x100_0000
    case 1 => (ip / 0x1_0000) % 0x100
    case 2 => (ip / 0x100) % 0x100
    case _ => ip % 0x100
  }

  function Octets(ip: uint32): (fields: seq<string>) {
    [Dec(Octet(ip, 0)), Dec(Octet(ip, 1)), Dec(Octet(ip, 2)), Dec(Octet(ip, 3))]
  }

  /** ip::address_v4::to_string. */
  function Dotted(ip: uint32): (s: string) { Join(Octets(ip), '.') }

  predicate IsOctet(f: string) {
    1 <= |f| <= 3 && Digits(f) && Value(f) < 0x100 && (|f| > 1 ==> f[0] != '0')
  }

  /** The strict reader behind make_address: four octets without leading zeros. */
  function ParseDotted(s: string): (r: Option<uint32>) {
    var f := Split(s, ".");
    if |f| == 4 && IsOctet(f[0]) && IsOctet(f[1]) && IsOctet(f[2]) && IsOctet(f[3]) then
      Some(((Value(f[0]) * 0x100 + Value(f[1])) * 0x100 + Value(f[2])) * 0x100 + Value(f[3]))
    else None
  }

  lemma DecIsOctet(n: uint8)
    ensures IsOctet(Dec(n)) && Value(Dec(n)) == n && LacksAll(Dec(n), ".")
  {
    ValueOfDec(n);
    DecLength(n, 3, 1000);
    DecHasNo(n, ".");
  }

  lemma DecHasNo(n: nat, seps: string)
    requires forall c :: c in seps ==> !IsDigit(c)
    ensures LacksAll(Dec(n), seps)
  {
  }

  lemma OctetsRebuild(ip: uint32)
    ensures ((Octet(ip, 0) * 0x100 + Octet(ip, 1)) * 0x100 + Octet(ip, 2)) * 0x100 + Octet(ip, 3) == ip
  {
    var a, b, c := ip / 0x100, ip / 0x1_0000, ip / 0x100_0000;
    assert a / 0x100 == b && b / 0x100 == c;
  }

  /** Every address survives being printed and read. */
  lemma DottedRoundTrip(ip: uint32)
    ensures ParseDotted(Dotted(ip)) == Some(ip)
  {
    hide Split, Octet, Value, Dec, IsOctet;
    DecIsOctet(Octet(ip, 0)); DecIsOctet(Octet(ip, 1)); DecIsOctet(Octet(ip, 2)); DecIsOctet(Octet(ip, 3));
    SplitJoin(Octets(ip), '.', ".");
    OctetsRebuild(ip);
  }

  predicate DotOrDigit(c: char) { IsDigit(c) || c == '.' }

  predicate AddressLike(s: string) {
    s != "" && IsDigit(s[0]) && IsDigit(s[|s| - 1]) && forall k :: 0 <= k < |s| ==> DotOrDigit(s[k])
  }

  lemma DottedShape(ip: uint32)
    ensures AddressLike(Dotted(ip)) && Tidy(Dotted(ip)) && LacksAll(Dotted(ip), " /:")
  {
    JoinedNumbers([Octet(ip, 0), Octet(ip, 1), Octet(ip, 2), Octet(ip, 3)], Octets(ip));
    var s := Dotted(ip);
    assert forall k :: 0 <= k < |s| ==> DotOrDigit(s[k]);
  }

  lemma {:induction false} JoinedNumbers(ns: seq<nat>, fields: seq<string>)
    requires |ns| == |fields| > 0 && forall k :: 0 <= k < |ns| ==> fields[k] == Dec(ns[k])
    ensures AddressLike(Join(fields, '.'))
  {
    if |ns| > 1 {
      JoinedNumbers(ns[1..], fields[1..]);
      var a, b := fields[0], Join(fields[1..], '.');
      assert Join(fields, '.')[0] == a[0] && Join(fields, '.')[|a| + |b|] == b[|b| - 1];
    }
  }

  // ----- ids -----

  /** The ids of a table from `k` on, in ascending order. */
  function IdsFrom(keys: set<uint8>, k: nat): (ids: seq<uint8>)
    requires k <= 0x100
    ensures forall id :: id in ids <==> id in keys && id >= k
    ensures |ids| <= 0x100 - k
    decreases 0x100 - k
  {
    if k == 0x100 then []
    else if k in keys then [k as uint8] + IdsFrom(keys, k + 1)
    else IdsFrom(keys, k + 1)
  }
}
