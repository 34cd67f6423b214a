// A 16-bit register as a polynomial over the two-element field: addition, multiplication by x
// modulo x^16 + x^12 + x^5 + 1, and the byte-wise form of eight such multiplications.
module Register {

  function Plus(c: bv16, d: bv16): (r: bv16) { c ^ d }

  function Shifted(c: bv16): (r: bv16) { c << 1 }

  /** What reducing adds when the top bit is shifted out. */
  function Carry(c: bv16): (r: bv16) { if c & 0x8000 != 0 then 0x1021 else 0 }

  /** Multiplies by x and reduces. */
  function TimesX(c: bv16): (r: bv16) { Plus(Shifted(c), Carry(c)) }

  function AtTop(bit: bool): (r: bv16) { if bit then 0x8000 else 0 }

  function Half(c: bv16): (r: bv16) { c >> 1 }

  predicate Even(c: bv16) { c & 1 == 0 }

  /** None of the bits of `m` is set. */
  predicate Clear(c: bv16, m: bv16) { c & m == 0 }

  predicate Odd(m: bv16) { m & 1 == 1 }

  lemma PlusAssociative(c: bv16, d: bv16, e: bv16)
    ensures Plus(Plus(c, d), e) == Plus(c, Plus(d, e))
  {
  }

  lemma PlusCommutes(c: bv16, d: bv16)
    ensures Plus(c, d) == Plus(d, c)
  {
  }

  lemma PlusSwaps(a: bv16, b: bv16, c: bv16, d: bv16)
    ensures Plus(Plus(a, b), Plus(c, d)) == Plus(Plus(a, c), Plus(b, d))
  {
    hide Plus;
    PlusAssociative(a, b, Plus(c, d));
    PlusAssociative(b, c, d);
    PlusCommutes(b, c);
    PlusAssociative(c, b, d);
    PlusAssociative(a, c, Plus(b, d));
  }

  lemma ShiftedLinear(c: bv16, d: bv16)
    ensures Shifted(Plus(c, d)) == Plus(Shifted(c), Shifted(d))
  {
  }

  lemma CarryLinear(c: bv16, d: bv16)
    ensures Carry(Plus(c, d)) == Plus(Carry(c), Carry(d))
  {
  }

  lemma TimesXLinear(c: bv16, d: bv16)
    ensures TimesX(Plus(c, d)) == Plus(TimesX(c), TimesX(d))
  {
    hide Carry, Shifted, Plus;
    ShiftedLinear(c, d);
    CarryLinear(c, d);
    PlusSwaps(Shifted(c), Shifted(d), Carry(c), Carry(d));
  }

  lemma TimesXHalf(z: bv16)
    requires Even(z)
    ensures TimesX(Half(z)) == z
  {
  }

  lemma TimesXInjective(c: bv16, d: bv16)
    requires TimesX(c) == TimesX(d)
    ensures c == d
  {
    hide TimesX, Plus;
    TimesXLinear(c, d);
    PlusSelf(TimesX(c), c, d);
    OnlyZeroGivesZero(Plus(c, d));
  }

  lemma PlusSelf(t: bv16, c: bv16, d: bv16)
    ensures Plus(t, t) == 0
    ensures Plus(c, d) == 0 ==> c == d
  {
  }

  lemma OnlyZeroGivesZero(c: bv16)
    requires TimesX(c) == 0
    ensures c == 0
  {
  }

  lemma PlusZero(c: bv16)
    ensures Plus(c, 0) == c
  {
  }

  lemma PlusCancels(c: bv16, x: bv16, y: bv16)
    ensures Plus(c, x) == Plus(c, y) ==> x == y
    ensures Plus(x, c) == Plus(y, c) ==> x == y
  {
  }

  lemma HalvesStayClear(bit: bool, z: bv16, m: bv16)
    requires Clear(z, m)
    ensures Clear(Plus(AtTop(bit), Half(z)), Half(m))
  {
  }

  lemma OddMaskEven(z: bv16, m: bv16)
    requires Clear(z, m) && Odd(m)
    ensures Even(z)
  {
  }

  lemma TopDiffers(b: bool, z: bv16, b': bool, z': bv16)
    requires Plus(AtTop(b), Half(z)) == Plus(AtTop(b'), Half(z')) && Even(z) && Even(z')
    ensures b == b' && z == z'
  {
  }

  // ----- eight multiplications at once -----

  function TimesX2(c: bv16): (r: bv16) { TimesX(TimesX(c)) }

  function TimesX4(c: bv16): (r: bv16) { TimesX2(TimesX2(c)) }

  function TimesX8(c: bv16): (r: bv16) { TimesX4(TimesX4(c)) }

  function HighByte(c: bv16): (b: bv8) { (c >> 8) as bv8 }

  function AtHigh(b: bv8): (r: bv16) { (b as bv16) << 8 }

  /** What the fast form adds for the byte that leaves the register. */
  function Folded(x0: bv8): (r: bv16) {
    var x := x0 ^ (x0 >> 4);
    ((x as bv16) << 12) ^ ((x as bv16) << 5) ^ (x as bv16)
  }

  /** One byte of the fast form. */
  function FastByte(crc: bv16, b: bv8): (r: bv16) {
    (crc << 8) ^ Folded(HighByte(crc) ^ b)
  }

  lemma FoldedIsTimesX8(x: bv8)
    ensures Folded(x) == TimesX8(AtHigh(x))
  {
  }

  lemma LowByteMoves(c: bv16)
    ensures TimesX8(c & 0xFF) == c << 8
  {
  }

  lemma TimesX2Linear(c: bv16, d: bv16)
    ensures TimesX2(Plus(c, d)) == Plus(TimesX2(c), TimesX2(d))
  {
    hide TimesX, Plus;
    TimesXLinear(c, d);
    TimesXLinear(TimesX(c), TimesX(d));
  }

  lemma TimesX4Linear(c: bv16, d: bv16)
    ensures TimesX4(Plus(c, d)) == Plus(TimesX4(c), TimesX4(d))
  {
    hide TimesX2, Plus;
    TimesX2Linear(c, d);
    TimesX2Linear(TimesX2(c), TimesX2(d));
  }

  lemma TimesX8Linear(c: bv16, d: bv16)
    ensures TimesX8(Plus(c, d)) == Plus(TimesX8(c), TimesX8(d))
  {
    hide TimesX4, Plus;
    TimesX4Linear(c, d);
    TimesX4Linear(TimesX4(c), TimesX4(d));
  }

  lemma SplitBytes(c: bv16, b: bv8)
    ensures Plus(c, AtHigh(b)) == Plus(c & 0xFF, AtHigh(HighByte(c) ^ b))
  {
  }

  /** A byte of the fast form adds the byte on top and multiplies eight times. */
  lemma FastByteIsTimesX8(c: bv16, b: bv8)
    ensures FastByte(c, b) == TimesX8(Plus(c, AtHigh(b)))
  {
    hide TimesX8, AtHigh, Folded, HighByte;
    var h := HighByte(c) ^ b;
    SplitBytes(c, b);
    TimesX8Linear(c & 0xFF, AtHigh(h));
    LowByteMoves(c);
    FoldedIsTimesX8(h);
  }
}
