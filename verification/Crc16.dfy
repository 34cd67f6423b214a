// The checksum of announced descriptions.
module Crc16 {
  // The 16-bit checksum that identifies an announced session description: the byte-at-a-time
  // form against division bit by bit, and the edits it is sure to notice.

  import opened Register

  /** Divides a message bit by bit, the register starting at `c`. */
  function Divide(c: bv16, bits: seq<bool>): (r: bv16)
    decreases |bits|
  {
    if bits == [] then c else Divide(TimesX(Plus(c, AtTop(bits[0]))), bits[1..])
  }

  /** The bits of a byte, the most significant one first. */
  function ByteBits(b: bv8): (bits: seq<bool>)
    ensures |bits| == 8
  {
    [b & 0x80 != 0, b & 0x40 != 0, b & 0x20 != 0, b & 0x10 != 0,
     b & 0x08 != 0, b & 0x04 != 0, b & 0x02 != 0, b & 0x01 != 0]
  }

  function Bits(p: seq<bv8>): (bits: seq<bool>)
    ensures |bits| == 8 * |p|
  {
    if p == [] then [] else Bits(p[..|p| - 1]) + ByteBits(p[|p| - 1])
  }

  lemma {:induction false} DivideConcat(c: bv16, xs: seq<bool>, ys: seq<bool>)
    ensures Divide(c, xs + ys) == Divide(Divide(c, xs), ys)
    decreases |xs|
  {
    hide TimesX, Plus, AtTop;
    if xs == [] {
      assert xs + ys == ys;
    } else {
      assert (xs + ys)[1..] == xs[1..] + ys;
      DivideConcat(TimesX(Plus(c, AtTop(xs[0]))), xs[1..], ys);
    }
  }

  lemma {:induction false} BitsConcat(p: seq<bv8>, q: seq<bv8>)
    ensures Bits(p + q) == Bits(p) + Bits(q)
  {
    hide ByteBits;
    if q == [] {
      assert p + q == p;
    } else {
      var n := |q| - 1;
      assert (p + q)[..|p| + n] == p + q[..n];
      BitsConcat(p, q[..n]);
      assert Bits(p) + (Bits(q[..n]) + ByteBits(q[n])) == Bits(p) + Bits(q[..n]) + ByteBits(q[n]);
    }
  }

  // ----- short messages -----

  function TimesXPow(n: nat, c: bv16): (r: bv16) { if n == 0 then c else TimesXPow(n - 1, TimesX(c)) }

  lemma {:induction false} TimesXPowInjective(n: nat, c: bv16, d: bv16)
    requires TimesXPow(n, c) == TimesXPow(n, d)
    ensures c == d
  {
    hide TimesX;
    if n > 0 {
      TimesXPowInjective(n - 1, TimesX(c), TimesX(d));
      TimesXInjective(c, d);
    }
  }

  /** At most 16 bits, aligned to the top of a register. */
  function Aligned(bits: seq<bool>): (r: bv16)
    decreases |bits|
  {
    if bits == [] then 0 else Plus(AtTop(bits[0]), Half(Aligned(bits[1..])))
  }

  /** The register with all but the top `n` bits set. */
  function Below(n: nat): (m: bv16) { if n == 0 then 0xFFFF else Half(Below(n - 1)) }

  lemma BelowOdd(n: nat)
    requires n < 16
    ensures Odd(Below(n))
  {
    assert Below(1) == 0x7FFF && Below(2) == 0x3FFF && Below(3) == 0x1FFF && Below(4) == 0x0FFF;
    assert Below(5) == 0x07FF && Below(6) == 0x03FF && Below(7) == 0x01FF && Below(8) == 0x00FF;
    assert Below(9) == 0x007F && Below(10) == 0x003F && Below(11) == 0x001F && Below(12) == 0x000F;
    assert Below(13) == 0x0007 && Below(14) == 0x0003 && Below(15) == 0x0001;
  }

  /** The bits that an aligned message does not reach are clear. */
  lemma {:induction false} AlignedClearBelow(bits: seq<bool>)
    ensures Clear(Aligned(bits), Below(|bits|))
    decreases |bits|
  {
    hide Plus, AtTop, Half, Clear;
    if bits == [] {
      NothingSet(0xFFFF);
    } else {
      AlignedClearBelow(bits[1..]);
      HalvesStayClear(bits[0], Aligned(bits[1..]), Below(|bits| - 1));
    }
  }

  lemma NothingSet(m: bv16)
    ensures Clear(0, m)
  {
  }

  lemma AlignedEven(bits: seq<bool>)
    requires |bits| < 16
    ensures Even(Aligned(bits))
  {
    hide Clear, Odd, Even, Aligned, Below;
    AlignedClearBelow(bits);
    BelowOdd(|bits|);
    OddMaskEven(Aligned(bits), Below(|bits|));
  }

  /** Up to 16 bits can just as well be added to the register before it is shifted. */
  lemma {:induction false} DivideShort(c: bv16, bits: seq<bool>)
    requires |bits| <= 16
    ensures Divide(c, bits) == TimesXPow(|bits|, Plus(c, Aligned(bits)))
    decreases |bits|
  {
    hide TimesX, AtTop, Plus, Half, Even;
    if bits == [] {
      PlusZero(c);
    } else {
      var z, t := Aligned(bits[1..]), AtTop(bits[0]);
      AlignedEven(bits[1..]);
      TimesXHalf(z);
      TimesXLinear(Plus(c, t), Half(z));
      DivideShort(TimesX(Plus(c, t)), bits[1..]);
      PlusAssociative(c, t, Half(z));
    }
  }

  lemma {:induction false} AlignedInjective(xs: seq<bool>, ys: seq<bool>)
    requires |xs| == |ys| <= 16 && Aligned(xs) == Aligned(ys)
    ensures xs == ys
    decreases |xs|
  {
    hide AtTop, Plus, Half, Even;
    if xs != [] {
      AlignedEven(xs[1..]);
      AlignedEven(ys[1..]);
      TopDiffers(xs[0], Aligned(xs[1..]), ys[0], Aligned(ys[1..]));
      AlignedInjective(xs[1..], ys[1..]);
      assert xs == [xs[0]] + xs[1..] && ys == [ys[0]] + ys[1..];
    }
  }

  lemma {:induction false} DivideInjective(c: bv16, d: bv16, bits: seq<bool>)
    requires Divide(c, bits) == Divide(d, bits)
    ensures c == d
    decreases |bits|
  {
    hide TimesX, AtTop, Plus;
    if bits != [] {
      var t := AtTop(bits[0]);
      DivideInjective(TimesX(Plus(c, t)), TimesX(Plus(d, t)), bits[1..]);
      TimesXInjective(Plus(c, t), Plus(d, t));
      PlusCancels(t, c, d);
    }
  }

  lemma ShortDistinct(c: bv16, xs: seq<bool>, ys: seq<bool>)
    requires |xs| == |ys| <= 16 && Divide(c, xs) == Divide(c, ys)
    ensures xs == ys
  {
    hide Divide, Plus, Aligned, TimesXPow;
    DivideShort(c, xs);
    DivideShort(c, ys);
    TimesXPowInjective(|xs|, Plus(c, Aligned(xs)), Plus(c, Aligned(ys)));
    PlusCancels(c, Aligned(xs), Aligned(ys));
    AlignedInjective(xs, ys);
  }

  /** Two messages that differ only within 16 consecutive bits have different checksums. */
  lemma BurstIsNoticed(c: bv16, before: seq<bool>, xs: seq<bool>, ys: seq<bool>, rest: seq<bool>)
    requires |xs| == |ys| <= 16 && xs != ys
    ensures Divide(c, before + xs + rest) != Divide(c, before + ys + rest)
  {
    hide Divide;
    var d := Divide(c, before);
    DivideConcat(c, before + xs, rest);
    DivideConcat(c, before, xs);
    DivideConcat(c, before + ys, rest);
    DivideConcat(c, before, ys);
    if Divide(c, before + xs + rest) == Divide(c, before + ys + rest) {
      DivideInjective(Divide(d, xs), Divide(d, ys), rest);
      ShortDistinct(d, xs, ys);
    }
  }

  // ----- the fast form -----

  /** Four bits on top of what follows. */
  function Four(a: bool, b: bool, c: bool, d: bool, z: bv16): (r: bv16) {
    Plus(AtTop(a), Half(Plus(AtTop(b), Half(Plus(AtTop(c), Half(Plus(AtTop(d), Half(z))))))))
  }

  /** Eight bits, aligned to the top of a register. */
  function AlignedByte(b: bv8): (r: bv16) {
    Four(b & 0x80 != 0, b & 0x40 != 0, b & 0x20 != 0, b & 0x10 != 0,
      Four(b & 0x08 != 0, b & 0x04 != 0, b & 0x02 != 0, b & 0x01 != 0, 0))
  }

  lemma AlignedByteIsAtHigh(b: bv8)
    ensures AlignedByte(b) == AtHigh(b)
  {
  }

  lemma AlignedFirst(bit: bool, rest: seq<bool>)
    ensures Aligned([bit] + rest) == Plus(AtTop(bit), Half(Aligned(rest)))
  {
  }

  lemma AlignedFour(a: bool, b: bool, c: bool, d: bool, rest: seq<bool>)
    ensures Aligned([a, b, c, d] + rest)
            == Four(a, b, c, d, Aligned(rest))
  {
    hide Plus, AtTop, Half, Aligned;
    AlignedFirst(d, rest);
    AlignedFirst(c, [d] + rest);
    AlignedFirst(b, [c] + ([d] + rest));
    AlignedFirst(a, [b] + ([c] + ([d] + rest)));
    assert [a, b, c, d] + rest == [a] + ([b] + ([c] + ([d] + rest)));
  }

  lemma ByteBitsAligned(b: bv8)
    ensures Aligned(ByteBits(b)) == AlignedByte(b)
  {
    hide Four, Aligned;
    var s := ByteBits(b);
    AlignedFour(s[4], s[5], s[6], s[7], []);
    AlignedFour(s[0], s[1], s[2], s[3], [s[4], s[5], s[6], s[7]]);
    assert [s[4], s[5], s[6], s[7]] + [] == [s[4], s[5], s[6], s[7]];
    assert [s[0], s[1], s[2], s[3]] + [s[4], s[5], s[6], s[7]] == s;
    NoBits();
  }

  lemma NoBits()
    ensures Aligned([]) == 0
  {
  }

  lemma TwoTimesX(n: nat, c: bv16)
    ensures TimesXPow(n + 2, c) == TimesXPow(n, TimesX2(c))
  {
  }

  lemma EightTimesX(c: bv16)
    ensures TimesXPow(8, c) == TimesX8(c)
  {
    hide TimesX2, TimesXPow;
    TwoTimesX(6, c);
    TwoTimesX(4, TimesX2(c));
    TwoTimesX(2, TimesX2(TimesX2(c)));
    TwoTimesX(0, TimesX2(TimesX2(TimesX2(c))));
    NoTimesX(TimesX2(TimesX2(TimesX2(TimesX2(c)))));
  }

  lemma NoTimesX(c: bv16)
    ensures TimesXPow(0, c) == c
  {
  }

  lemma FastByteDivides(c: bv16, b: bv8)
    ensures FastByte(c, b) == Divide(c, ByteBits(b))
  {
    hide FastByte, Divide, Plus, TimesX8, Aligned, ByteBits, AlignedByte, TimesXPow;
    FastByteIsTimesX8(c, b);
    DivideShort(c, ByteBits(b));
    ByteBitsAligned(b);
    AlignedByteIsAtHigh(b);
    EightTimesX(Plus(c, AtHigh(b)));
  }

  /** The checksum of a message, byte by byte. */
  method Crc(p: seq<bv8>) returns (crc: bv16)
    ensures crc == Divide(0xFFFF, Bits(p))
  {
    hide Divide, ByteBits, FastByte;
    crc := 0xFFFF;
    var i := 0;
    NoBitsNoChange(0xFFFF);
    while i < |p|
      invariant 0 <= i <= |p|
      invariant crc == Divide(0xFFFF, Bits(p[..i]))
    {
      FastByteDivides(crc, p[i]);
      DivideConcat(0xFFFF, Bits(p[..i]), ByteBits(p[i]));
      assert p[..i + 1][..i] == p[..i];
      crc := FastByte(crc, p[i]);
      i := i + 1;
    }
    assert p[..i] == p;
  }

  lemma NoBitsNoChange(c: bv16)
    ensures Divide(c, Bits([])) == c
  {
  }

  // ----- edits of a session description -----

  function Checksum(p: seq<bv8>): (crc: bv16) { Divide(0xFFFF, Bits(p)) }

  /** What identifies an announcement: the source's id above the checksum of its description. */
  function AnnouncedHash(id: bv8, p: seq<bv8>): (hash: bv32) { Hash(id, Checksum(p)) }

  function Hash(id: bv8, crc: bv16): (hash: bv32) { ((id as bv32) << 16) + crc as bv32 }

  /** The checksum stands in the lower sixteen bits. */
  lemma HashLow(id: bv8, crc: bv16)
    ensures Hash(id, crc) & 0xFFFF == crc as bv32
  {
  }

  /** The identifier stands above them. */
  lemma HashHigh(id: bv8, crc: bv16)
    ensures Hash(id, crc) >> 16 == id as bv32
  {
  }

  lemma ByteBitsInjective(a: bv8, b: bv8)
    requires ByteBits(a) == ByteBits(b)
    ensures a == b
  {
  }

  lemma {:induction false} BitsInjective(p: seq<bv8>, q: seq<bv8>)
    requires |p| == |q| && Bits(p) == Bits(q)
    ensures p == q
  {
    hide ByteBits;
    if p != [] {
      var n := |p| - 1;
      assert Bits(p) == Bits(p[..n]) + ByteBits(p[n]) && Bits(q) == Bits(q[..n]) + ByteBits(q[n]);
      assert Bits(p)[..8 * n] == Bits(p[..n]) && Bits(q)[..8 * n] == Bits(q[..n]);
      assert Bits(p)[8 * n..] == ByteBits(p[n]) && Bits(q)[8 * n..] == ByteBits(q[n]);
      BitsInjective(p[..n], q[..n]);
      ByteBitsInjective(p[n], q[n]);
      assert p == p[..n] + [p[n]] && q == q[..n] + [q[n]];
    }
  }

  /** The two messages agree except within two adjacent bytes. */
  predicate CloseEdit(p: seq<bv8>, q: seq<bv8>, at: nat) {
    && at < |p| == |q| && p != q
    && forall k :: 0 <= k < |p| && k != at && k != at + 1 ==> p[k] == q[k]
  }

  /** Such an edit always changes the checksum, and with it the announced hash. */
  lemma CloseEditIsNoticed(p: seq<bv8>, q: seq<bv8>, at: nat, id: bv8)
    requires CloseEdit(p, q, at)
    ensures Checksum(p) != Checksum(q)
    ensures AnnouncedHash(id, p) != AnnouncedHash(id, q)
  {
    hide Divide, Bits, Hash;
    var end := if at + 2 <= |p| then at + 2 else |p|;
    var a, x, y, rest := p[..at], p[at..end], q[at..end], p[end..];
    assert p == a + x + rest && q == a + y + rest;
    BitsConcat(a + x, rest);
    BitsConcat(a, x);
    BitsConcat(a + y, rest);
    BitsConcat(a, y);
    if Bits(x) == Bits(y) {
      BitsInjective(x, y);
      assert false;
    }
    BurstIsNoticed(0xFFFF, Bits(a), Bits(x), Bits(y), Bits(rest));
    HashInjective(id, Checksum(p), id, Checksum(q));
  }

  /** Announcements share a hash exactly when source and checksum agree. */
  lemma HashesDiffer(i: bv8, p: seq<bv8>, j: bv8, q: seq<bv8>)
    ensures AnnouncedHash(i, p) >> 16 == i as bv32 && AnnouncedHash(i, p) & 0xFFFF == Checksum(p) as bv32
    ensures AnnouncedHash(i, p) == AnnouncedHash(j, q) <==> i == j && Checksum(p) == Checksum(q)
  {
    HashHigh(i, Checksum(p));
    HashLow(i, Checksum(p));
    assert AnnouncedHash(i, p) == AnnouncedHash(j, q) <==> i == j && Checksum(p) == Checksum(q) by {
      HashInjective(i, Checksum(p), j, Checksum(q));
    }
  }

  lemma HashInjective(i: bv8, c: bv16, j: bv8, d: bv16)
    ensures Hash(i, c) == Hash(j, d) <==> i == j && c == d
  {
  }
}
