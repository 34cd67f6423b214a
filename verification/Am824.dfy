// The AM824 framer: every call turns one sample into a 32-bit word with block and frame marks,
// a channel status bit and even parity, and moves on to the next subframe.
module Am824 {
  import opened Arithmetic

  // ----- parity -----

  predicate Low(n: bv32) { n & 1 == 1 }

  function HalfOf(n: bv32): (r: bv32) { n >> 1 }

  function Or(a: bv32, b: bv32): (r: bv32) { a | b }

  function And(a: bv32, m: bv32): (r: bv32) { a & m }

  predicate Disjoint(a: bv32, b: bv32) { a & b == 0 }

  /** The number of bits set. */
  function Ones(n: bv32): (k: nat)
    decreases n
  {
    if n == 0 then 0
    else
      HalfIsLess(n);
      AsCount(Low(n)) + Ones(HalfOf(n))
  }

  lemma HalfIsLess(n: bv32)
    requires n != 0
    ensures HalfOf(n) < n
  {
  }

  lemma OnesOfZero()
    ensures Ones(0) == 0
  {
  }

  lemma OnesHalf(n: bv32)
    ensures Ones(n) == AsCount(Low(n)) + Ones(HalfOf(n))
  {
  }

  /** Clears the lowest bit that is set. */
  function DropLowest(n: bv32): (r: bv32) { n & (n - 1) }

  lemma DropFromOdd(n: bv32)
    requires Low(n)
    ensures HalfOf(DropLowest(n)) == HalfOf(n) && !Low(DropLowest(n))
  {
  }

  lemma DropFromEven(n: bv32)
    requires !Low(n) && n != 0
    ensures HalfOf(DropLowest(n)) == DropLowest(HalfOf(n)) && !Low(DropLowest(n)) && HalfOf(n) != 0
  {
  }

  lemma DropIsLess(n: bv32)
    requires n != 0
    ensures DropLowest(n) < n
  {
  }

  lemma {:induction false} DropOne(n: bv32)
    requires n != 0
    ensures Ones(n) == Ones(DropLowest(n)) + 1
    decreases n
  {
    hide DropLowest, Ones, HalfOf, Low;
    OnesHalf(n);
    OnesHalf(DropLowest(n));
    if Low(n) {
      DropFromOdd(n);
    } else {
      DropFromEven(n);
      HalfIsLess(n);
      DropOne(HalfOf(n));
    }
  }

  /** Counts the bits set by clearing them one after the other. */
  method Parity(word: bv32) returns (odd: bool)
    ensures odd <==> Ones(word) % 2 == 1
  {
    hide Ones;
    var n := word;
    odd := false;
    OnesOfZero();
    while n != 0
      invariant odd <==> (Ones(word) - Ones(n)) % 2 == 1
      decreases n
    {
      DropOne(n);
      DropIsLess(n);
      odd := !odd;
      n := n & (n - 1);
    }
  }

  lemma DisjointHalves(a: bv32, b: bv32)
    requires Disjoint(a, b)
    ensures Disjoint(HalfOf(a), HalfOf(b)) && HalfOf(Or(a, b)) == Or(HalfOf(a), HalfOf(b))
    ensures AsCount(Low(Or(a, b))) == AsCount(Low(a)) + AsCount(Low(b))
  {
  }

  lemma OrZero(b: bv32)
    ensures Or(0, b) == b && Or(b, 0) == b
  {
  }

  lemma {:induction false} OnesDisjoint(a: bv32, b: bv32)
    requires Disjoint(a, b)
    ensures Ones(Or(a, b)) == Ones(a) + Ones(b)
    decreases a
  {
    hide Ones, Or, Disjoint, HalfOf, Low;
    if a == 0 {
      OnesOfZero();
      OrZero(b);
    } else {
      OnesHalf(a);
      OnesHalf(b);
      OnesHalf(Or(a, b));
      DisjointHalves(a, b);
      HalfIsLess(a);
      OnesDisjoint(HalfOf(a), HalfOf(b));
    }
  }

  // ----- one word -----

  const BLOCK: bv32 := 0x2000_0000
  const FRAME: bv32 := 0x1000_0000
  const PARITY: bv32 := 0x0800_0000
  const STATUS: bv32 := 0x0400_0000
  const USER: bv32 := 0x0200_0000
  const VALIDITY: bv32 := 0x0100_0000
  const AUDIO: bv32 := 0x00FF_FFFF

  /** The audio part of a word; 16-bit input is moved to the top. */
  function Justified(input: bv32, bitDepth: nat): (sample: bv32) { if bitDepth == 16 then input << 8 else input }

  function Mark(flag: bool, bit: bv32): (r: bv32) { if flag then bit else 0 }

  function Marks(block: bool, frame: bool, status: bool): (r: bv32) {
    Or(Or(Mark(block, BLOCK), Mark(frame, FRAME)), Mark(status, STATUS))
  }

  function Unprotected(sample: bv32, block: bool, frame: bool, status: bool): (w: bv32) {
    Or(sample, Marks(block, frame, status))
  }

  function Protected(w: bv32): (r: bv32) { Or(w, Mark(Ones(w) % 2 == 1, PARITY)) }

  function Word(sample: bv32, block: bool, frame: bool, status: bool): (w: bv32) {
    Protected(Unprotected(sample, block, frame, status))
  }

  predicate Within24(sample: bv32) { sample & AUDIO == sample }

  predicate Has(w: bv32, bit: bv32) { And(w, bit) != 0 }

  /** The marks a receiver finds in a word. */
  predicate Marked(w: bv32, block: bool, frame: bool, status: bool) {
    && (Has(w, BLOCK) <==> block) && (Has(w, FRAME) <==> frame) && (Has(w, STATUS) <==> status)
    && !Has(w, USER) && !Has(w, VALIDITY)
  }

  function Audio(w: bv32): (sample: bv32) { w & AUDIO }

  predicate NoAudio(c: bv32) { c & AUDIO == 0 }

  lemma AudioApart(sample: bv32, c: bv32)
    requires Within24(sample) && NoAudio(c)
    ensures Audio(Or(sample, c)) == sample
  {
  }

  lemma MarksApart(sample: bv32, c: bv32, block: bool, frame: bool, status: bool)
    requires Within24(sample)
    ensures Marked(Or(sample, c), block, frame, status) <==> Marked(c, block, frame, status)
    ensures Disjoint(Or(sample, c), PARITY) <==> Disjoint(c, PARITY)
  {
  }

  lemma OrAssociative(a: bv32, b: bv32, c: bv32)
    ensures Or(Or(a, b), c) == Or(a, Or(b, c))
  {
  }

  lemma MarksRead(block: bool, frame: bool, status: bool, parity: bool)
    ensures Marked(Or(Marks(block, frame, status), Mark(parity, PARITY)), block, frame, status)
    ensures NoAudio(Or(Marks(block, frame, status), Mark(parity, PARITY)))
    ensures Disjoint(Marks(block, frame, status), PARITY)
  {
  }

  lemma OnesOfParity()
    ensures Ones(PARITY) == 1
  {
    hide Ones;
    DropOne(PARITY);
    assert DropLowest(PARITY) == 0;
    OnesOfZero();
  }

  /** A word has even parity and is read back as what went into it. */
  lemma WordReadsBack(sample: bv32, block: bool, frame: bool, status: bool)
    requires Within24(sample)
    ensures var w := Word(sample, block, frame, status);
            Ones(w) % 2 == 0 && Audio(w) == sample && Marked(w, block, frame, status)
  {
    hide Ones, Or, Marks, Marked, Audio, NoAudio, Mark, Disjoint, Within24;
    var w := Unprotected(sample, block, frame, status);
    var parity := Ones(w) % 2 == 1;
    var marks, p := Marks(block, frame, status), Mark(parity, PARITY);
    OrAssociative(sample, marks, p);
    MarksRead(block, frame, status, parity);
    AudioApart(sample, Or(marks, p));
    MarksApart(sample, Or(marks, p), block, frame, status);
    MarksApart(sample, marks, block, frame, status);
    ParityEvens(w);
  }

  /** The marks of a word whose sample has bits above the audio: they show through. */
  predicate MarkedOver(w: bv32, sample: bv32, block: bool, frame: bool, status: bool) {
    && (Has(w, BLOCK) <==> block || Has(sample, BLOCK))
    && (Has(w, FRAME) <==> frame || Has(sample, FRAME))
    && (Has(w, STATUS) <==> status || Has(sample, STATUS))
    && (Has(w, USER) <==> Has(sample, USER)) && (Has(w, VALIDITY) <==> Has(sample, VALIDITY))
  }

  lemma HasOr(a: bv32, b: bv32, bit: bv32)
    ensures Has(Or(a, b), bit) <==> Has(a, bit) || Has(b, bit)
  {
    hide Or, And;
    MaskOfOr(a, b, bit);
    NothingSet(And(a, bit), And(b, bit));
  }

  lemma MaskOfOr(a: bv32, b: bv32, m: bv32)
    ensures And(Or(a, b), m) == Or(And(a, m), And(b, m))
  {
  }

  lemma NothingSet(a: bv32, b: bv32)
    ensures Or(a, b) == 0 <==> a == 0 && b == 0
  {
  }

  lemma AudioOr(a: bv32, b: bv32)
    requires NoAudio(b)
    ensures Audio(Or(a, b)) == Audio(a)
  {
  }

  lemma MarksShowThrough(sample: bv32, c: bv32, block: bool, frame: bool, status: bool)
    requires Marked(c, block, frame, status) && NoAudio(c)
    ensures MarkedOver(Or(sample, c), sample, block, frame, status) && Audio(Or(sample, c)) == Audio(sample)
  {
    hide Has, Or, Audio, NoAudio;
    HasOr(sample, c, BLOCK);
    HasOr(sample, c, FRAME);
    HasOr(sample, c, STATUS);
    HasOr(sample, c, USER);
    HasOr(sample, c, VALIDITY);
    AudioOr(sample, c);
  }

  lemma ParityTwice(w: bv32)
    ensures Has(w, PARITY) ==> Or(w, PARITY) == w
    ensures !Has(w, PARITY) <==> Disjoint(w, PARITY)
  {
  }

  lemma ParityBit(sample: bv32, marks: bv32)
    requires Disjoint(marks, PARITY)
    ensures Has(Or(sample, marks), PARITY) <==> Has(sample, PARITY)
    ensures Has(Or(sample, marks), PARITY) ==> Or(Or(sample, marks), PARITY) == Or(sample, marks)
    ensures !Has(Or(sample, marks), PARITY) ==> Disjoint(Or(sample, marks), PARITY)
  {
    hide Has, Or, Disjoint;
    HasOr(sample, marks, PARITY);
    ParityTwice(marks);
    ParityTwice(Or(sample, marks));
  }

  /** The same for any 32-bit sample: its low 24 bits are the audio, and the parity is even
      unless the sample itself occupies the parity bit of a word that needs it clear. */
  lemma AnyWordReads(sample: bv32, block: bool, frame: bool, status: bool)
    ensures var w := Word(sample, block, frame, status);
            && Audio(w) == Audio(sample) && MarkedOver(w, sample, block, frame, status)
            && (Ones(w) % 2 == 0 <==> !Has(sample, PARITY) || Ones(Unprotected(sample, block, frame, status)) % 2 == 0)
  {
    hide Ones, Or, Marks, Marked, MarkedOver, Audio, NoAudio, Mark, Disjoint, Has;
    var w := Unprotected(sample, block, frame, status);
    var parity := Ones(w) % 2 == 1;
    var marks, p := Marks(block, frame, status), Mark(parity, PARITY);
    OrAssociative(sample, marks, p);
    MarksRead(block, frame, status, parity);
    MarksShowThrough(sample, Or(marks, p), block, frame, status);
    ParityBit(sample, marks);
    if Has(w, PARITY) {
      MarkOf(w, parity);
    } else {
      ParityEvens(w);
    }
  }

  lemma MarkOf(w: bv32, parity: bool)
    ensures Or(w, Mark(parity, PARITY)) == if parity then Or(w, PARITY) else w
  {
    hide Or;
    OrZero(w);
  }

  lemma ParityEvens(w: bv32)
    requires Disjoint(w, PARITY)
    ensures Ones(Protected(w)) % 2 == 0
  {
    hide Ones, Or, Disjoint;
    if Ones(w) % 2 == 1 {
      OnesDisjoint(w, PARITY);
      OnesOfParity();
    } else {
      OrZero(w);
    }
  }

  // ----- the bytes of a word -----

  function Byte(w: bv32, i: nat): (b: bv8)
    requires i < 4
  {
    match i
    case 0 => (w & 0xFF) as bv8
    case 1 => ((w >> 8) & 0xFF) as bv8
    case 2 => ((w >> 16) & 0xFF) as bv8
    case _ => ((w >> 24) & 0xFF) as bv8
  }

  function Bytes(w: bv32, bigEndian: bool): (bytes: seq<bv8>)
    ensures |bytes| == 4
  {
    if bigEndian then [Byte(w, 3), Byte(w, 2), Byte(w, 1), Byte(w, 0)]
    else [Byte(w, 0), Byte(w, 1), Byte(w, 2), Byte(w, 3)]
  }

  function FromBytes(bytes: seq<bv8>, bigEndian: bool): (w: bv32)
    requires |bytes| == 4
  {
    if bigEndian then Joined(bytes[3], bytes[2], bytes[1], bytes[0])
    else Joined(bytes[0], bytes[1], bytes[2], bytes[3])
  }

  function Joined(b0: bv8, b1: bv8, b2: bv8, b3: bv8): (w: bv32) {
    (b0 as bv32) | ((b1 as bv32) << 8) | ((b2 as bv32) << 16) | ((b3 as bv32) << 24)
  }

  lemma BytesRoundTrip(w: bv32, bigEndian: bool)
    ensures FromBytes(Bytes(w, bigEndian), bigEndian) == w
  {
  }
}
