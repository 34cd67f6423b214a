// The AM824 framer over whole runs.
module Am824Framer {
  // The framer object: where it stands after any number of calls, what every call returns, and
  // the check byte it keeps for its channel status.

  import opened Am824
  import opened Arithmetic
  import Aes3Crc

  const STATUS_BYTES := 24
  const BLOCK_FRAMES := 192

  // ----- positions -----

  /** Subframes in a frame; the 8-bit counter makes 0 channels count as 256. */
  function Period(numChannels: nat): (k: nat)
    ensures k > 0
  {
    if numChannels == 0 then 256 else numChannels
  }

  function FrameInBlock(calls: nat, k: nat): (f: nat)
    requires k > 0
    ensures f < BLOCK_FRAMES
  {
    (calls / k) % BLOCK_FRAMES
  }

  function MaskAt(bit: nat): (m: bv8)
    requires bit < 8
  {
    match bit
    case 0 => 0x01 case 1 => 0x02 case 2 => 0x04 case 3 => 0x08
    case 4 => 0x10 case 5 => 0x20 case 6 => 0x40 case _ => 0x80
  }

  predicate BitSet(b: bv8, mask: bv8) { b & mask != 0 }

  /** The channel status bit of a frame. */
  predicate StatusBit(status: seq<bv8>, frame: nat)
    requires |status| == STATUS_BYTES && frame < BLOCK_FRAMES
  {
    BitSet(status[frame / 8], MaskAt(frame % 8))
  }

  /** One call later: the next subframe, or the first one of the next frame. */
  lemma NextCall(n: nat, k: nat)
    requires k > 0
    ensures n % k == k - 1 ==> (n + 1) % k == 0 && (n + 1) / k == n / k + 1
    ensures n % k != k - 1 ==> (n + 1) % k == n % k + 1 && (n + 1) / k == n / k
  {
    var q, r := n / k, n % k;
    assert n == q * k + r;
    assert (q + 1) * k == q * k + k;
    if r == k - 1 {
      Quotient(n + 1, k, q + 1, 0);
    } else {
      Quotient(n + 1, k, q, r + 1);
    }
  }

  /** What the call number `calls` returns. */
  function Output(status: seq<bv8>, numChannels: nat, bitDepth: nat, bigEndian: bool, calls: nat, input: bv32): (bytes: seq<bv8>)
    requires |status| == STATUS_BYTES
    ensures |bytes| == 4
  {
    var k := Period(numChannels);
    var f := FrameInBlock(calls, k);
    Bytes(Word(Justified(input, bitDepth), f == 0, calls % k == 0, StatusBit(status, f)), bigEndian)
  }

  // ----- channel status -----

  predicate Supported(bitDepth: nat) { bitDepth in {16, 20, 24} }

  /** Byte 0 announces professional, non-audio and 48 kHz; byte 2 the word length. */
  function InitialByte(bitDepth: nat, i: nat): (b: bv8) {
    if i == 0 then 0x83
    else if i == 2 && bitDepth == 16 then 0x08
    else if i == 2 && bitDepth == 20 then 0x0C
    else if i == 2 && bitDepth == 24 then 0x2C
    else 0
  }

  function Steps(n: nat, r: bv8): (q: bv8) { if n == 0 then r else Steps(n - 1, Aes3Crc.StepDown(r)) }

  lemma EightStepsAre(r: bv8)
    ensures Steps(8, r) == Aes3Crc.EightSteps(r)
  {
    hide Aes3Crc.StepDown;
    assert Steps(8, r) == Steps(4, Aes3Crc.FourSteps(r)) by { FourStepsAre(4, r); }
    FourStepsAre(0, Aes3Crc.FourSteps(r));
  }

  lemma FourStepsAre(n: nat, r: bv8)
    ensures Steps(n + 4, r) == Steps(n, Aes3Crc.FourSteps(r))
  {
    hide Aes3Crc.StepDown;
    var r2 := Aes3Crc.StepDown(Aes3Crc.StepDown(r));
    assert Steps(n + 4, r) == Steps(n + 2, r2);
    assert Steps(n + 2, r2) == Steps(n, Aes3Crc.StepDown(Aes3Crc.StepDown(r2)));
  }

  lemma PlusCommutes(a: bv8, b: bv8)
    ensures a ^ b == Aes3Crc.Plus(b, a)
  {
  }

  lemma SameIndex(b: bv8)
    ensures (b as int) as bv8 == b
  {
  }

  /** Zero bytes never bring the checksum to zero. */
  lemma {:induction false} ZerosKeepItNonzero(first: bv8, bytes: seq<bv8>)
    requires |bytes| > 0 && bytes[0] == first && first != 0xFF
    requires forall i :: 0 < i < |bytes| ==> bytes[i] == 0
    ensures Aes3Crc.TableCrc(bytes) != 0
  {
    hide Aes3Crc.EightSteps;
    var n := |bytes| - 1;
    if n == 0 {
      assert bytes[..0] == [];
      OneByteCrc(first);
    } else {
      ZerosKeepItNonzero(first, bytes[..n]);
      ZeroByteCrc(Aes3Crc.TableCrc(bytes[..n]));
    }
  }

  lemma OneByteCrc(b: bv8)
    requires b != 0xFF
    ensures Aes3Crc.EightSteps(Aes3Crc.Plus(0xFF, b)) != 0
  {
    hide Aes3Crc.FourSteps;
    NoStepsFromZero();
    if Aes3Crc.EightSteps(Aes3Crc.Plus(0xFF, b)) == 0 {
      Aes3Crc.EightStepsInjective(Aes3Crc.Plus(0xFF, b), 0);
    }
  }

  lemma ZeroByteCrc(c: bv8)
    requires c != 0
    ensures Aes3Crc.EightSteps(Aes3Crc.Plus(c, 0)) != 0
  {
    hide Aes3Crc.FourSteps;
    NoStepsFromZero();
    if Aes3Crc.EightSteps(Aes3Crc.Plus(c, 0)) == 0 {
      Aes3Crc.EightStepsInjective(Aes3Crc.Plus(c, 0), 0);
    }
  }

  lemma NoStepsFromZero()
    ensures Aes3Crc.EightSteps(0) == 0
  {
  }

  /** The default status: professional use, no linear audio and 48 kHz in byte 0; in byte 2 the
      use of the auxiliary bits for more than 16 bits, and the code of the word length. */
  lemma DefaultStatus(bitDepth: nat, i: nat)
    ensures InitialByte(bitDepth, 0) == 1 | (1 << 1) | (2 << 6)
    ensures i != 0 && i != 2 ==> InitialByte(bitDepth, i) == 0
    ensures InitialByte(bitDepth, 2) ==
            match bitDepth
            case 16 => 1 << 3
            case 20 => 4 | (1 << 3)
            case 24 => 4 | (5 << 3)
            case _ => 0
  {
  }

  /** The default status with no check byte set does not pass as checked. */
  lemma UnsupportedCheck(bytes: seq<bv8>, bitDepth: nat)
    requires !Supported(bitDepth) && bytes == seq(23, (i: nat) => InitialByte(bitDepth, i))
    ensures Aes3Crc.TableCrc(bytes) != 0
  {
    hide Aes3Crc.TableCrc;
    ZerosKeepItNonzero(0x83, bytes);
  }

  datatype ErrorCode = Ok | BadSamplingFrequency | UnsupportedBitDepth

  class Framer {
    const numChannels: nat
    const bitDepth: nat
    const bigEndian: bool
    const status: array<bv8>
    const table: array<bv8>
    var index: nat
    var mask: bv8
    var subFrame: nat
    /** What construction answers. */
    const err: ErrorCode
    ghost var calls: nat

    ghost predicate Shape()
    {
      status.Length == STATUS_BYTES && table.Length == 256 && status != table && numChannels < 256
    }

    ghost predicate TableRight()
      reads table
      requires Shape()
    {
      forall b: bv8 :: EntryRight(b)
    }

    ghost predicate EntryRight(b: bv8)
      reads table
      requires Shape()
    {
      table[b as int] == Aes3Crc.EightSteps(b)
    }

    ghost predicate CheckRight()
      reads status
      requires Shape()
    {
      status[23] == Aes3Crc.TableCrc(status[..23])
    }

    /** Everything is where the number of calls says; the check byte goes with the status. */
    ghost predicate Valid()
      reads this, status, table
    {
      && Shape()
      && subFrame == calls % Period(numChannels)
      && index == FrameInBlock(calls, Period(numChannels)) / 8
      && mask == MaskAt(FrameInBlock(calls, Period(numChannels)) % 8)
      && (Supported(bitDepth) ==> TableRight() && CheckRight())
    }

    /** With an unsupported bit depth neither the table nor the check byte is set up, and the
        check byte is wrong. */
    constructor (numChannels: nat, bitDepth: nat, bigEndian: bool)
      requires numChannels < 256 && bitDepth < 256
      ensures Valid() && calls == 0 && fresh(status) && fresh(table)
      ensures this.numChannels == numChannels && this.bitDepth == bitDepth && this.bigEndian == bigEndian
      ensures forall i :: 0 <= i < 23 ==> status[i] == InitialByte(bitDepth, i)
      ensures err == if Supported(bitDepth) then Ok else UnsupportedBitDepth
      ensures CheckRight() <==> Supported(bitDepth)
    {
      this.numChannels, this.bitDepth, this.bigEndian := numChannels, bitDepth, bigEndian;
      status, table := new bv8[STATUS_BYTES], new bv8[256];
      index, mask, subFrame, calls := 0, 1, 0, 0;
      err := if Supported(bitDepth) then Ok else UnsupportedBitDepth;
      new;
      SetDefaults();
      if Supported(bitDepth) {
        CrcTableInit();
        SetCrc();
      } else {
        UnsupportedCheck(status[..23], bitDepth);
      }
      hide InitialByte;
      assert forall k :: 0 <= k < 23 ==> status[..23][k] == status[k];
    }

    /** The default channel status, without its check byte. */
    method SetDefaults()
      requires Shape()
      modifies status
      ensures status[..23] == seq(23, (i: nat) => InitialByte(bitDepth, i)) && status[23] == 0
    {
      var i := 0;
      while i < STATUS_BYTES
        invariant 0 <= i <= STATUS_BYTES
        invariant forall k :: 0 <= k < i ==> status[k] == 0
      {
        status[i] := 0;
        i := i + 1;
      }
      status[0] := status[0] | 1;
      status[0] := status[0] | (1 << 1);
      status[0] := status[0] | (2 << 6);
      if bitDepth == 16 {
        status[2] := status[2] | (1 << 3);
      } else if bitDepth == 20 {
        status[2] := status[2] | 4;
        status[2] := status[2] | (1 << 3);
      } else if bitDepth == 24 {
        status[2] := status[2] | 4;
        status[2] := status[2] | (5 << 3);
      }
    }

    static method Remainder(dividend: bv8) returns (remainder: bv8)
      ensures remainder == Aes3Crc.EightSteps(dividend)
    {
      hide Aes3Crc.StepDown, Aes3Crc.EightSteps, Steps;
      remainder := dividend;
      var bit := 0;
      while bit < 8
        invariant 0 <= bit <= 8
        invariant Steps(8 - bit, remainder) == Steps(8, dividend)
      {
        OneStep(8 - bit, remainder);
        remainder := if remainder & 1 == 1 then (remainder >> 1) ^ 0xB8 else remainder >> 1;
        bit := bit + 1;
      }
      NoStep(remainder);
      EightStepsAre(dividend);
    }

    method CrcTableInit()
      requires Shape()
      modifies table
      ensures TableRight()
    {
      hide Aes3Crc.EightSteps;
      var dividend := 0;
      while dividend < 256
        invariant 0 <= dividend <= 256
        invariant forall b: bv8 :: (b as int) < dividend ==> EntryRight(b)
      {
        ghost var start := dividend as bv8;
        var remainder := Remainder(dividend as bv8);
        label Before:
        table[dividend] := remainder;
        forall b: bv8 | (b as int) < dividend + 1
          ensures EntryRight(b)
        {
          if (b as int) == dividend {
            SameIndex(b);
          } else {
            assert old@Before(EntryRight(b));
          }
        }
        dividend := dividend + 1;
      }
    }

    method SetCrc()
      requires Shape()
      modifies status
      ensures status[..23] == old(status[..23])
      ensures TableRight() ==> CheckRight()
    {
      hide Aes3Crc.EightSteps, Aes3Crc.Plus;
      var remainder: bv8 := 0xFF;
      var i := 0;
      while i < 23
        invariant 0 <= i <= 23
        invariant TableRight() ==> remainder == Aes3Crc.TableCrc(status[..i])
        invariant status[..] == old(status[..])
      {
        var data := status[i] ^ remainder;
        PlusCommutes(status[i], remainder);
        assert status[..i + 1][..i] == status[..i];
        assert TableRight() ==> EntryRight(data);
        remainder := table[data as int];
        i := i + 1;
      }
      status[23] := remainder;
    }

    /** The top two bits of byte 0 name the sampling frequency. */
    method SetSamplingFrequency(code: bv8) returns (r: ErrorCode)
      requires Valid()
      modifies status
      ensures Valid()
      ensures r == if code > 3 then BadSamplingFrequency else Ok
      ensures code > 3 ==> status[..] == old(status[..])
      ensures code <= 3 ==> status[0] >> 6 == code && status[0] & 0x3F == old(status[0]) & 0x3F
      ensures status[1..23] == old(status[1..23])
    {
      if code > 3 {
        return BadSamplingFrequency;
      }
      FrequencyBits(status[0], code);
      status[0] := status[0] & 0x3F;
      status[0] := status[0] | (code << 6);
      FinishSetting();
      r := Ok;
    }

    /** Every setter ends by bringing the check byte up to date. */
    method FinishSetting()
      requires Shape() && (Supported(bitDepth) ==> TableRight())
      modifies status
      ensures status[..23] == old(status[..23]) && status[0] == old(status[0]) && status[1..23] == old(status[1..23])
      ensures Supported(bitDepth) ==> CheckRight()
    {
      SetCrc();
      assert status[0] == status[..23][0] && status[1..23] == status[..23][1..];
      assert old(status[0]) == old(status[..23])[0] && old(status[1..23]) == old(status[..23])[1..];
    }

    method SetProfessionalMode()
      requires Valid()
      modifies status
      ensures Valid() && status[1..23] == old(status[1..23])
      ensures status[0] & 1 == 1 && status[0] & 0xFE == old(status[0]) & 0xFE
    {
      ModeBits(status[0]);
      status[0] := status[0] | 1;
      FinishSetting();
    }

    method SetConsumerMode()
      requires Valid()
      modifies status
      ensures Valid() && status[1..23] == old(status[1..23])
      ensures status[0] & 1 == 0 && status[0] & 0xFE == old(status[0]) & 0xFE
    {
      ModeBits(status[0]);
      status[0] := status[0] & 0xFE;
      FinishSetting();
    }

    method SetAudioMode()
      requires Valid()
      modifies status
      ensures Valid() && status[1..23] == old(status[1..23])
      ensures status[0] & 2 == 0 && status[0] & 0xFD == old(status[0]) & 0xFD
    {
      ModeBits(status[0]);
      status[0] := status[0] & 0xFD;
      FinishSetting();
    }

    method SetDataMode()
      requires Valid()
      modifies status
      ensures Valid() && status[1..23] == old(status[1..23])
      ensures status[0] & 2 == 2 && status[0] & 0xFD == old(status[0]) & 0xFD
    {
      ModeBits(status[0]);
      status[0] := status[0] | 2;
      FinishSetting();
    }

    static method BuildWord(sample: bv32, block: bool, frame: bool, status: bool) returns (word: bv32)
      ensures word == Word(sample, block, frame, status)
    {
      hide Ones, Or, Mark, Unprotected;
      word := Or(Or(Or(sample, Mark(block, BLOCK)), Mark(frame, FRAME)), Mark(status, STATUS));
      MarksInOrder(sample, block, frame, status);
      var odd := Parity(word);
      word := Or(word, Mark(odd, PARITY));
    }

    /** One sample in, one word out, and on to the next subframe. */
    method GetAM824Sample(input: bv32) returns (bytes: seq<bv8>)
      requires Valid()
      modifies this
      ensures Valid() && calls == old(calls) + 1
      ensures bytes == Output(status[..], numChannels, bitDepth, bigEndian, old(calls), input)
    {
      hide Word, Bytes, MaskAt, FrameInBlock, TableRight, CheckRight, BitSet, Justified;
      ghost var f := FrameInBlock(calls, Period(numChannels));
      MasksDiffer(f % 8, mask);
      NextFrame(f);
      var channelStatusBit := BitSet(status[index], mask);
      var word := BuildWord(Justified(input, bitDepth), index == 0 && mask == 1, subFrame == 0, channelStatusBit);
      bytes := Bytes(word, bigEndian);
      Advance();
    }

    method Advance()
      requires Valid()
      modifies this
      ensures Valid() && calls == old(calls) + 1
    {
      hide MaskAt, FrameInBlock, TableRight, CheckRight;
      ghost var k := Period(numChannels);
      ghost var f := FrameInBlock(calls, k);
      MasksDiffer(f % 8, mask);
      NextMask(f % 8);
      NextPosition(calls, k);
      NextFrame(f);
      subFrame := if subFrame == 255 then 0 else subFrame + 1;
      if subFrame == numChannels {
        subFrame := 0;
        if mask == 0x80 {
          mask := 1;
          index := index + 1;
          if index == STATUS_BYTES {
            index := 0;
          }
        } else {
          mask := mask << 1;
        }
      }
      calls := calls + 1;
    }
  }

  lemma NextPosition(n: nat, k: nat)
    requires k > 0
    ensures n % k < k
    ensures n % k == k - 1 ==> (n + 1) % k == 0 && FrameInBlock(n + 1, k) == (FrameInBlock(n, k) + 1) % BLOCK_FRAMES
    ensures n % k != k - 1 ==> (n + 1) % k == n % k + 1 && FrameInBlock(n + 1, k) == FrameInBlock(n, k)
  {
    NextCall(n, k);
    ModularSuccessor(n / k);
  }

  lemma ModularSuccessor(q: nat)
    ensures (q + 1) % BLOCK_FRAMES == (q % BLOCK_FRAMES + 1) % BLOCK_FRAMES
  {
  }

  lemma NextFrame(f: nat)
    requires f < BLOCK_FRAMES
    ensures var g := (f + 1) % BLOCK_FRAMES;
            && (f % 8 != 7 ==> g / 8 == f / 8 && g % 8 == f % 8 + 1)
            && (f % 8 == 7 ==> g / 8 == (if f / 8 == 23 then 0 else f / 8 + 1) && g % 8 == 0)
            && f / 8 < STATUS_BYTES && (f == 0 <==> f / 8 == 0 && f % 8 == 0)
  {
  }

  lemma MasksDiffer(bit: nat, mask: bv8)
    requires bit < 8 && mask == MaskAt(bit)
    ensures mask == 1 <==> bit == 0
    ensures mask == 0x80 <==> bit == 7
    ensures MaskAt(0) == 1
  {
  }

  lemma NextMask(bit: nat)
    requires bit < 8
    ensures bit < 7 ==> MaskAt(bit) << 1 == MaskAt(bit + 1)
  {
  }

  lemma FrequencyBits(b: bv8, code: bv8)
    requires code <= 3
    ensures var r := (b & 0x3F) | (code << 6); r >> 6 == code && r & 0x3F == b & 0x3F
  {
  }

  lemma ModeBits(b: bv8)
    ensures (b | 1) & 1 == 1 && (b | 1) & 0xFE == b & 0xFE
    ensures (b & 0xFE) & 1 == 0 && (b & 0xFE) & 0xFE == b & 0xFE
    ensures (b & 0xFD) & 2 == 0 && (b & 0xFD) & 0xFD == b & 0xFD
    ensures (b | 2) & 2 == 2 && (b | 2) & 0xFD == b & 0xFD
  {
  }

  lemma MarksInOrder(sample: bv32, block: bool, frame: bool, status: bool)
    ensures Or(Or(Or(sample, Mark(block, BLOCK)), Mark(frame, FRAME)), Mark(status, STATUS))
            == Unprotected(sample, block, frame, status)
  {
    hide Or, Mark;
    var b, f, t := Mark(block, BLOCK), Mark(frame, FRAME), Mark(status, STATUS);
    OrAssociative(sample, b, f);
    OrAssociative(sample, Or(b, f), t);
  }

  lemma OneStep(n: nat, r: bv8)
    requires n > 0
    ensures Steps(n, r) == Steps(n - 1, if r & 1 == 1 then (r >> 1) ^ 0xB8 else r >> 1)
  {
  }

  lemma NoStep(r: bv8)
    ensures Steps(0, r) == r
  {
  }

  // ----- whole runs -----

  /** The input has no more bits than the bit depth allows for. */
  predicate InRange(input: bv32, bitDepth: nat) {
    if bitDepth == 16 then input < 0x1_0000 else input < 0x100_0000
  }

  /** The input again, from the audio part of a word. */
  function Original(sample: bv32, bitDepth: nat): (input: bv32) { if bitDepth == 16 then sample >> 8 else sample }

  /** What a receiver reads off the output of any call: the low 24 bits of the sample, a frame
      mark on the first subframe of every frame, a block mark on every subframe of each 192nd
      frame, that frame's channel status bit, and even parity. Input within its bit depth is
      read back whole; bits above it show in the marks and can spoil the parity. */
  lemma OutputReads(status: seq<bv8>, numChannels: nat, bitDepth: nat, bigEndian: bool,
                                       calls: nat, input: bv32)
    requires |status| == STATUS_BYTES
    ensures var k, raw := if numChannels == 0 then 256 else numChannels, Justified(input, bitDepth);
            var f := FrameInBlock(calls, k);
            var block, frame, bit := f == 0, calls % k == 0, StatusBit(status, f);
            var w := FromBytes(Output(status, numChannels, bitDepth, bigEndian, calls, input), bigEndian);
            && Audio(w) == Audio(raw) && MarkedOver(w, raw, block, frame, bit)
            && (Ones(w) % 2 == 0 <==> !Has(raw, PARITY) || Ones(Unprotected(raw, block, frame, bit)) % 2 == 0)
            && (InRange(input, bitDepth) ==>
                  Ones(w) % 2 == 0 && Original(Audio(w), bitDepth) == input && Marked(w, block, frame, bit))
  {
    hide Word, Ones, Audio, Marked, MarkedOver, Has, FromBytes, Bytes, StatusBit, Within24, InRange, FrameInBlock;
    hide Original, Justified, Unprotected;
    var k, raw := Period(numChannels), Justified(input, bitDepth);
    var f := FrameInBlock(calls, k);
    var w := Word(raw, f == 0, calls % k == 0, StatusBit(status, f));
    BytesRoundTrip(w, bigEndian);
    AnyWordReads(raw, f == 0, calls % k == 0, StatusBit(status, f));
    if InRange(input, bitDepth) {
      RangeFits(input, bitDepth);
      WordReadsBack(raw, f == 0, calls % k == 0, StatusBit(status, f));
    }
  }

  lemma RangeFits(input: bv32, bitDepth: nat)
    requires InRange(input, bitDepth)
    ensures Within24(Justified(input, bitDepth))
    ensures Original(Justified(input, bitDepth), bitDepth) == input
  {
  }

  predicate HasStatus(w: bv32) { Has(w, STATUS) }

  /** The status bit a receiver finds on the first subframe of a frame. */
  predicate Received(outputs: seq<seq<bv8>>, k: nat, bigEndian: bool, frame: nat)
  {
    && frame * k < |outputs| && |outputs[frame * k]| == 4
    && HasStatus(FromBytes(outputs[frame * k], bigEndian))
  }

  function Pick(bit: bool, mask: bv8): (r: bv8) { if bit then mask else 0 }

  function Assembled(b0: bool, b1: bool, b2: bool, b3: bool, b4: bool, b5: bool, b6: bool, b7: bool): (b: bv8) {
    Pick(b0, 0x01) | Pick(b1, 0x02) | Pick(b2, 0x04) | Pick(b3, 0x08)
    | Pick(b4, 0x10) | Pick(b5, 0x20) | Pick(b6, 0x40) | Pick(b7, 0x80)
  }

  lemma AssembledBits(b: bv8)
    ensures Assembled(BitSet(b, MaskAt(0)), BitSet(b, MaskAt(1)), BitSet(b, MaskAt(2)), BitSet(b, MaskAt(3)),
                      BitSet(b, MaskAt(4)), BitSet(b, MaskAt(5)), BitSet(b, MaskAt(6)), BitSet(b, MaskAt(7))) == b
  {
  }

  /** Every output of the block has come from the framer, its status bytes unchanged. */
  ghost predicate IsBlock(outputs: seq<seq<bv8>>, status: seq<bv8>, numChannels: nat, bitDepth: nat, bigEndian: bool,
                          first: nat, inputs: seq<bv32>)
    requires |status| == STATUS_BYTES
  {
    && |outputs| == |inputs| == BLOCK_FRAMES * Period(numChannels)
    && first % (BLOCK_FRAMES * Period(numChannels)) == 0
    && forall n :: 0 <= n < |outputs| ==>
         && InRange(inputs[n], bitDepth)
         && outputs[n] == Output(status, numChannels, bitDepth, bigEndian, first + n, inputs[n])
  }

  lemma FramePosition(first: nat, k: nat, frame: nat)
    requires k > 0 && first % (BLOCK_FRAMES * k) == 0 && frame < BLOCK_FRAMES
    ensures FrameInBlock(first + frame * k, k) == frame && frame * k < BLOCK_FRAMES * k
  {
    var q := first / (BLOCK_FRAMES * k);
    assert first == BLOCK_FRAMES * k * q;
    Distribute(k, q, frame);
    Quotient(first + frame * k, k, BLOCK_FRAMES * q + frame, 0);
    assert (BLOCK_FRAMES * q + frame) % BLOCK_FRAMES == frame;
  }

  lemma Distribute(k: nat, q: nat, frame: nat)
    requires k > 0 && frame < BLOCK_FRAMES
    ensures BLOCK_FRAMES * k * q + frame * k == (BLOCK_FRAMES * q + frame) * k
    ensures frame * k < BLOCK_FRAMES * k
  {
    assert (BLOCK_FRAMES - frame) * k > 0;
  }

  lemma ReceivedIsStatus(outputs: seq<seq<bv8>>, status: seq<bv8>, numChannels: nat, bitDepth: nat,
                                            bigEndian: bool, first: nat, inputs: seq<bv32>, frame: nat)
    requires |status| == STATUS_BYTES && frame < BLOCK_FRAMES
    requires IsBlock(outputs, status, numChannels, bitDepth, bigEndian, first, inputs)
    ensures Received(outputs, Period(numChannels), bigEndian, frame) <==> StatusBit(status, frame)
  {
    hide Output, StatusBit, FromBytes, Audio, Ones, FrameInBlock;
    var k := Period(numChannels);
    FramePosition(first, k, frame);
    OutputReads(status, numChannels, bitDepth, bigEndian, first + frame * k, inputs[frame * k]);
    MarkedHasStatus(FromBytes(outputs[frame * k], bigEndian), frame == 0, (first + frame * k) % k == 0, StatusBit(status, frame));
  }

  lemma MarkedHasStatus(w: bv32, block: bool, frame: bool, status: bool)
    requires Marked(w, block, frame, status)
    ensures HasStatus(w) <==> status
  {
  }

  /** The status bits of a block's 192 frames are the 24 channel status bytes again. */
  lemma BlockRebuildsStatus(outputs: seq<seq<bv8>>, status: seq<bv8>, numChannels: nat, bitDepth: nat,
                                               bigEndian: bool, first: nat, inputs: seq<bv32>, j: nat)
    requires |status| == STATUS_BYTES && j < STATUS_BYTES
    requires IsBlock(outputs, status, numChannels, bitDepth, bigEndian, first, inputs)
    ensures var k := if numChannels == 0 then 256 else numChannels;
            Assembled(Received(outputs, k, bigEndian, 8 * j), Received(outputs, k, bigEndian, 8 * j + 1),
                      Received(outputs, k, bigEndian, 8 * j + 2), Received(outputs, k, bigEndian, 8 * j + 3),
                      Received(outputs, k, bigEndian, 8 * j + 4), Received(outputs, k, bigEndian, 8 * j + 5),
                      Received(outputs, k, bigEndian, 8 * j + 6), Received(outputs, k, bigEndian, 8 * j + 7)) == status[j]
  {
    hide IsBlock, Received, Assembled, BitSet, MaskAt;
    var k := Period(numChannels);
    forall i | 0 <= i < 8
      ensures Received(outputs, k, bigEndian, 8 * j + i) <==> BitSet(status[j], MaskAt(i))
    {
      ReceivedIsStatus(outputs, status, numChannels, bitDepth, bigEndian, first, inputs, 8 * j + i);
      assert (8 * j + i) / 8 == j && (8 * j + i) % 8 == i;
    }
    AssembledBits(status[j]);
  }
}
