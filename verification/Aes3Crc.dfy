// The check byte of AES3 channel status: a table-driven checksum over the first 23 bytes
// against division bit by bit, least significant bit first.
module Aes3Crc {

  /** One step of the division by x^8 + x^4 + x^3 + x^2 + 1, in reflected form. */
  function StepDown(r: bv8): (q: bv8) { if r & 1 == 1 then (r >> 1) ^ 0xB8 else r >> 1 }

  function FourSteps(r: bv8): (q: bv8) { StepDown(StepDown(StepDown(StepDown(r)))) }

  /** What the table holds for a byte. */
  function EightSteps(r: bv8): (q: bv8) { FourSteps(FourSteps(r)) }

  function Plus(a: bv8, b: bv8): (r: bv8) { a ^ b }

  function AtLow(bit: bool): (r: bv8) { if bit then 1 else 0 }

  function Divide(r: bv8, bits: seq<bool>): (q: bv8)
    decreases |bits|
  {
    if bits == [] then r else Divide(StepDown(Plus(r, AtLow(bits[0]))), bits[1..])
  }

  /** The bits of a byte, the least significant one first. */
  function ByteBits(b: bv8): (bits: seq<bool>)
    ensures |bits| == 8
  {
    [b & 0x01 != 0, b & 0x02 != 0, b & 0x04 != 0, b & 0x08 != 0,
     b & 0x10 != 0, b & 0x20 != 0, b & 0x40 != 0, b & 0x80 != 0]
  }

  function Bits(bytes: seq<bv8>): (bits: seq<bool>) {
    if bytes == [] then [] else Bits(bytes[..|bytes| - 1]) + ByteBits(bytes[|bytes| - 1])
  }

  /** The checksum, one table look-up a byte. */
  function TableCrc(bytes: seq<bv8>): (crc: bv8) {
    if bytes == [] then 0xFF
    else EightSteps(Plus(TableCrc(bytes[..|bytes| - 1]), bytes[|bytes| - 1]))
  }

  // ----- the table form divides -----

  function FourDown(r: bv8, a: bool, b: bool, c: bool, d: bool): (q: bv8) {
    StepDown(Plus(StepDown(Plus(StepDown(Plus(StepDown(Plus(r, AtLow(a))), AtLow(b))), AtLow(c))), AtLow(d)))
  }

  /** Half of the byte goes through the register, the other half waits below it. */
  lemma FourStepsTakeBits(r: bv8, b: bv8)
    ensures FourSteps(Plus(r, b))
            == Plus(FourDown(r, b & 0x01 != 0, b & 0x02 != 0, b & 0x04 != 0, b & 0x08 != 0), b >> 4)
  {
  }

  lemma UpperHalf(r: bv8, b: bv8)
    ensures FourDown(r, (b >> 4) & 0x01 != 0, (b >> 4) & 0x02 != 0, (b >> 4) & 0x04 != 0, (b >> 4) & 0x08 != 0)
            == FourDown(r, b & 0x10 != 0, b & 0x20 != 0, b & 0x40 != 0, b & 0x80 != 0)
    ensures Plus(r, (b >> 4) >> 4) == r
  {
  }

  lemma EightStepsTakeBits(r: bv8, b: bv8)
    ensures EightSteps(Plus(r, b))
            == FourDown(FourDown(r, b & 0x01 != 0, b & 0x02 != 0, b & 0x04 != 0, b & 0x08 != 0),
                        b & 0x10 != 0, b & 0x20 != 0, b & 0x40 != 0, b & 0x80 != 0)
  {
    hide FourSteps, FourDown, Plus;
    var q := FourDown(r, b & 0x01 != 0, b & 0x02 != 0, b & 0x04 != 0, b & 0x08 != 0);
    FourStepsTakeBits(r, b);
    FourStepsTakeBits(q, b >> 4);
    UpperHalf(q, b);
    UpperHalf(FourDown(q, b & 0x10 != 0, b & 0x20 != 0, b & 0x40 != 0, b & 0x80 != 0), b);
  }

  lemma DivideFirst(r: bv8, bit: bool, rest: seq<bool>)
    ensures Divide(r, [bit] + rest) == Divide(StepDown(Plus(r, AtLow(bit))), rest)
  {
  }

  lemma DivideFour(r: bv8, a: bool, b: bool, c: bool, d: bool, rest: seq<bool>)
    ensures Divide(r, [a, b, c, d] + rest) == Divide(FourDown(r, a, b, c, d), rest)
  {
    hide StepDown, Plus, AtLow, Divide;
    var r1 := StepDown(Plus(r, AtLow(a)));
    var r2 := StepDown(Plus(r1, AtLow(b)));
    assert [a, b, c, d] + rest == [a] + ([b] + ([c] + ([d] + rest)));
    DivideFirst(r, a, [b] + ([c] + ([d] + rest)));
    DivideFirst(r1, b, [c] + ([d] + rest));
    DivideFirst(r2, c, [d] + rest);
    DivideFirst(StepDown(Plus(r2, AtLow(c))), d, rest);
  }

  lemma ByteDivides(r: bv8, b: bv8)
    ensures EightSteps(Plus(r, b)) == Divide(r, ByteBits(b))
  {
    hide EightSteps, FourDown, Divide, Plus;
    var s := ByteBits(b);
    EightStepsTakeBits(r, b);
    DivideFour(r, s[0], s[1], s[2], s[3], [s[4], s[5], s[6], s[7]]);
    DivideFour(FourDown(r, s[0], s[1], s[2], s[3]), s[4], s[5], s[6], s[7], []);
    assert [s[4], s[5], s[6], s[7]] + [] == [s[4], s[5], s[6], s[7]];
    assert [s[0], s[1], s[2], s[3]] + [s[4], s[5], s[6], s[7]] == s;
    NoBits(FourDown(FourDown(r, s[0], s[1], s[2], s[3]), s[4], s[5], s[6], s[7]));
  }

  lemma NoBits(r: bv8)
    ensures Divide(r, []) == r
  {
  }

  lemma {:induction false} DivideConcat(r: bv8, xs: seq<bool>, ys: seq<bool>)
    ensures Divide(r, xs + ys) == Divide(Divide(r, xs), ys)
    decreases |xs|
  {
    hide StepDown, Plus, AtLow;
    if xs == [] {
      assert xs + ys == ys;
    } else {
      assert (xs + ys)[1..] == xs[1..] + ys;
      DivideConcat(StepDown(Plus(r, AtLow(xs[0]))), xs[1..], ys);
    }
  }

  /** The table form is the division of the whole message, for any number of bytes. */
  lemma {:induction false} TableCrcDivides(bytes: seq<bv8>)
    ensures TableCrc(bytes) == Divide(0xFF, Bits(bytes))
  {
    hide EightSteps, Plus, Divide, ByteBits;
    if bytes == [] {
      NoBits(0xFF);
    } else {
      var n := |bytes| - 1;
      TableCrcDivides(bytes[..n]);
      ByteDivides(TableCrc(bytes[..n]), bytes[n]);
      DivideConcat(0xFF, Bits(bytes[..n]), ByteBits(bytes[n]));
    }
  }

  // ----- what the check byte notices -----

  lemma EightStepsInjective(r: bv8, s: bv8)
    requires EightSteps(r) == EightSteps(s)
    ensures r == s
  {
  }

  lemma PlusCancels(a: bv8, b: bv8, c: bv8)
    ensures Plus(a, c) == Plus(b, c) ==> a == b
    ensures Plus(c, a) == Plus(c, b) ==> a == b
  {
  }

  /** Changing any one byte changes the check byte. */
  lemma {:induction false} OneByteIsNoticed(xs: seq<bv8>, ys: seq<bv8>, at: nat)
    requires at < |xs| == |ys| && xs[at] != ys[at]
    requires forall k :: 0 <= k < |xs| && k != at ==> xs[k] == ys[k]
    ensures TableCrc(xs) != TableCrc(ys)
  {
    hide EightSteps, Plus;
    var n := |xs| - 1;
    var x, y := TableCrc(xs[..n]), TableCrc(ys[..n]);
    if at == n {
      assert xs[..n] == ys[..n];
      PlusCancels(xs[n], ys[n], x);
    } else {
      OneByteIsNoticed(xs[..n], ys[..n], at);
      PlusCancels(x, y, xs[n]);
    }
    if TableCrc(xs) == TableCrc(ys) {
      EightStepsInjective(Plus(x, xs[n]), Plus(y, ys[n]));
    }
  }
}
