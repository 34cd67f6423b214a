// The streamer: capture, encoding and the ring of files.
module Streamer {
  // Captured audio fills a buffer chunk by chunk; when it is full, the channels of
  // the sink are encoded into the next slot of a ring of files.

  import opened Arithmetic
  import opened Text

  type Sample = bv16

  /** One sample of every captured channel. */
  type Frame = seq<Sample>

  // ----- projecting channels -----

  predicate Covers(f: Frame, channels: seq<nat>) { forall i :: 0 <= i < |channels| ==> channels[i] < |f| }

  function ProjectFrame(frame: Frame, channels: seq<nat>): (r: seq<Sample>)
    requires Covers(frame, channels)
    ensures |r| == |channels|
    ensures forall i :: 0 <= i < |channels| ==> r[i] == frame[channels[i]]
  {
    if channels == [] then []
    else ProjectFrame(frame, channels[..|channels| - 1]) + [frame[channels[|channels| - 1]]]
  }

  predicate Captured(frames: seq<Frame>, channels: seq<nat>) {
    forall i :: 0 <= i < |frames| ==> Covers(frames[i], channels)
  }

  /** The samples of the chosen channels, frame after frame. */
  function Project(frames: seq<Frame>, channels: seq<nat>): (r: seq<Sample>)
    requires Captured(frames, channels)
  {
    if frames == [] then []
    else Project(frames[..|frames| - 1], channels) + ProjectFrame(frames[|frames| - 1], channels)
  }

  lemma CapturedConcat(xs: seq<Frame>, ys: seq<Frame>, channels: seq<nat>)
    requires Captured(xs, channels) && Captured(ys, channels)
    ensures Captured(xs + ys, channels)
  {
  }

  lemma ProjectSnoc(xs: seq<Frame>, frame: Frame, channels: seq<nat>)
    requires Captured(xs, channels) && Covers(frame, channels)
    ensures Captured(xs + [frame], channels)
    ensures Project(xs + [frame], channels) == Project(xs, channels) + ProjectFrame(frame, channels)
  {
  }

  lemma {:induction false} ProjectConcat(xs: seq<Frame>, ys: seq<Frame>, channels: seq<nat>)
    requires Captured(xs, channels) && Captured(ys, channels)
    ensures Captured(xs + ys, channels)
    ensures Project(xs + ys, channels) == Project(xs, channels) + Project(ys, channels)
  {
    hide Covers, ProjectFrame, Project;
    CapturedConcat(xs, ys, channels);
    if ys == [] {
      assert xs + ys == xs;
      ProjectNothing(channels);
    } else {
      var n := |ys| - 1;
      var before, last := ys[..n], ys[n];
      assert ys == before + [last] && xs + ys == (xs + before) + [last];
      ProjectConcat(xs, before, channels);
      ProjectSnoc(before, last, channels);
      ProjectSnoc(xs + before, last, channels);
    }
  }

  lemma ProjectNothing(channels: seq<nat>)
    ensures Captured([], channels) && Project([], channels) == []
  {
  }

  // ----- encoding a file -----

  /** Encoder calls for a file of `total` samples in blocks of `block`. */
  function Calls(total: nat, block: nat): (n: nat)
    requires block > 0
  {
    if total <= block then 1 else 1 + Calls(total - block, block)
  }

  /** What is left for the last call. */
  function Rest(total: nat, block: nat): (n: nat)
    requires block > 0
    ensures n <= block && n <= total
  {
    if total <= block then total else Rest(total - block, block)
  }

  /** What the encoder makes of a block, given how often it was called for the file before. */
  type Encoder = (seq<Sample>, nat) -> Option<seq<bv8>>

  /** The blocks of a file. The size of the last one is kept in 16 bits. */
  function Blocks(input: seq<Sample>, block: nat): (r: seq<seq<Sample>>)
    requires block > 0
    decreases |input|
  {
    if |input| <= block then [input[..|input| % 0x1_0000]]
    else [input[..block]] + Blocks(input[block..], block)
  }

  function Flat(blocks: seq<seq<Sample>>): (r: seq<Sample>) {
    if blocks == [] then [] else blocks[0] + Flat(blocks[1..])
  }

  /** The encoded blocks one after the other, unless one cannot be encoded. */
  function EncodeAll(blocks: seq<seq<Sample>>, encoder: Encoder, call: nat): (r: Option<seq<bv8>>)
    decreases |blocks|
  {
    if blocks == [] then Some([])
    else
      match encoder(blocks[0], call)
      case None => None
      case Some(bytes) =>
        match EncodeAll(blocks[1..], encoder, call + 1)
        case None => None
        case Some(rest) => Some(bytes + rest)
  }

  function Prefixed(done: seq<bv8>, rest: Option<seq<bv8>>): (r: Option<seq<bv8>>) {
    match rest
    case None => None
    case Some(bytes) => Some(done + bytes)
  }

  lemma NothingWritten(rest: Option<seq<bv8>>)
    ensures Prefixed([], rest) == rest
  {
    if rest.Some? {
      assert [] + rest.value == rest.value;
    }
  }

  lemma FirstBlock(input: seq<Sample>, block: nat, encoder: Encoder, call: nat, done: seq<bv8>)
    requires block > 0
    ensures var first := if |input| <= block then input[..|input| % 0x1_0000] else input[..block];
            Prefixed(done, EncodeAll(Blocks(input, block), encoder, call)) ==
            match encoder(first, call)
            case None => None
            case Some(bytes) =>
              if |input| <= block then Some(done + bytes)
              else Prefixed(done + bytes, EncodeAll(Blocks(input[block..], block), encoder, call + 1))
  {
    var rest := Blocks(input, block)[1..];
    assert |input| > block ==> rest == Blocks(input[block..], block);
    assert |input| <= block ==> rest == [];
    var e := encoder(Blocks(input, block)[0], call);
    var r := EncodeAll(rest, encoder, call + 1);
    if e.Some? && r.Some? {
      assert done + (e.value + r.value) == (done + e.value) + r.value;
      assert |input| <= block ==> r.value == [] && e.value + [] == e.value;
    }
  }

  /** The encode loop. */
  method Encode(input: seq<Sample>, block: nat, encoder: Encoder) returns (output: Option<seq<bv8>>, calls: nat)
    requires block > 0
    ensures output == EncodeAll(Blocks(input, block), encoder, 0)
    ensures output.Some? ==> calls == Calls(|input|, block)
  {
    hide EncodeAll, Blocks;
    var written: seq<bv8> := [];
    calls := 0;
    var inSamples, size, end := 0, block, false;
    assert input[0..] == input;
    NothingWritten(EncodeAll(Blocks(input, block), encoder, 0));
    while !end
      invariant 0 <= inSamples <= |input|
      invariant !end ==> size == block
      invariant !end ==> calls + Calls(|input| - inSamples, block) == Calls(|input|, block)
      invariant !end ==> EncodeAll(Blocks(input, block), encoder, 0)
                         == Prefixed(written, EncodeAll(Blocks(input[inSamples..], block), encoder, calls))
      invariant end ==> calls == Calls(|input|, block)
      invariant end ==> EncodeAll(Blocks(input, block), encoder, 0) == Some(written)
      decreases if end then 0 else 1, |input| - inSamples
    {
      ghost var left := input[inSamples..];
      FirstBlock(left, block, encoder, calls, written);
      if inSamples + size >= |input| {
        size := (|input| - inSamples) % 0x1_0000;
        end := true;
      }
      assert input[inSamples..inSamples + size] == left[..size];
      assert !end ==> left[size..] == input[inSamples + size..];
      var bytes := encoder(input[inSamples..inSamples + size], calls);
      if bytes.None? {
        return None, calls;
      }
      written := written + bytes.value;
      inSamples := inSamples + size;
      calls := calls + 1;
    }
    output := Some(written);
  }

  /** What the encoder is fed: everything, except that the last block loses whole multiples of
      65536 samples. */
  lemma {:induction false} BlocksCover(input: seq<Sample>, block: nat)
    requires block > 0
    ensures var rest := Rest(|input|, block);
            Flat(Blocks(input, block)) == input[..|input| - rest + rest % 0x1_0000]
    ensures |Blocks(input, block)| == Calls(|input|, block)
    decreases |input|
  {
    if |input| <= block {
      assert Flat(Blocks(input, block)) == Blocks(input, block)[0] + [];
    } else {
      var later := input[block..];
      BlocksCover(later, block);
      FlatCons(input[..block], Blocks(later, block));
      Prefixes(input, block, |later| - Rest(|later|, block) + Rest(|later|, block) % 0x1_0000);
    }
  }

  lemma FlatCons(first: seq<Sample>, blocks: seq<seq<Sample>>)
    ensures Flat([first] + blocks) == first + Flat(blocks)
  {
    assert ([first] + blocks)[1..] == blocks;
  }

  lemma Prefixes(s: seq<Sample>, k: nat, n: nat)
    requires k + n <= |s|
    ensures s[..k] + s[k..][..n] == s[..k + n]
  {
  }

  ghost predicate WithinRoom(encoder: Encoder, room: nat) {
    forall samples: seq<Sample>, call: nat ::
      encoder(samples, call).Some? ==> |encoder(samples, call).value| <= room
  }

  /** An encoder that writes at most `room` bytes a call fills at most that many for each call. */
  lemma {:induction false} EncodedFits(blocks: seq<seq<Sample>>, encoder: Encoder, call: nat, room: nat)
    requires WithinRoom(encoder, room)
    ensures var r := EncodeAll(blocks, encoder, call); r.Some? ==> |r.value| <= |blocks| * room
    decreases |blocks|
  {
    if blocks != [] {
      EncodedFits(blocks[1..], encoder, call + 1, room);
      OneMoreCall(|blocks| - 1, room);
    }
  }

  lemma OneMoreCall(calls: nat, room: nat)
    ensures (calls + 1) * room == calls * room + room
  {
  }

  /** The output buffer as allocated. */
  function BufferSize(total: nat, block: nat, room: nat): (n: nat)
    requires block > 0
  {
    room * total / block
  }

  lemma {:induction false} CallsOfMultiple(q: nat, block: nat, r: nat)
    requires block > 0 && r < block
    ensures Calls(block * q + r, block) == if r > 0 then q + 1 else if q == 0 then 1 else q
  {
    if q > 0 {
      assert block * q == block * (q - 1) + block;
      if block * q + r > block {
        CallsOfMultiple(q - 1, block, r);
      } else {
        MultipleAtMost(block, q, r);
      }
    }
  }

  lemma MultipleAtMost(block: nat, q: nat, r: nat)
    requires block > 0 && q > 0 && block * q + r <= block
    ensures q == 1 && r == 0
  {
    assert block * (q - 1) + r <= 0;
    assert q > 1 ==> block * (q - 1) >= block;
  }

  lemma FloorBelow(room: nat, total: nat, block: nat, n: nat)
    requires block > 0
    ensures room * total / block >= n <==> room * total >= n * block
  {
    var x := room * total;
    assert x == block * (x / block) + x % block;
    if x / block >= n {
      assert block * (x / block) >= block * n;
    } else {
      assert block * (x / block) <= block * (n - 1);
      assert block * (n - 1) == block * n - block;
    }
  }

  /** The output buffer takes whatever the encoder may produce exactly when the file is a
      whole number of blocks. */
  lemma OutputFits(total: nat, block: nat, room: nat)
    requires total > 0 && block > 0 && room > 0
    ensures Calls(total, block) * room <= BufferSize(total, block, room) <==> total % block == 0
  {
    var q, r := total / block, total % block;
    assert total == block * q + r;
    CallsOfMultiple(q, block, r);
    var calls := Calls(total, block);
    hide Calls;
    FloorBelow(room, total, block, calls * room);
    Regroup(room, total, calls, block);
    if r > 0 {
      assert (q + 1) * block == block * q + block;
    } else {
      assert q * block == block * q;
    }
  }

  lemma Regroup(room: nat, total: nat, calls: nat, block: nat)
    requires room > 0
    ensures calls * room * block == room * (calls * block)
    ensures room * total >= room * (calls * block) <==> total >= calls * block
  {
    if total >= calls * block {
      assert room * (total - calls * block) >= 0;
    } else {
      assert room * (calls * block - total) > 0;
    }
  }

  /** What the encoder may write stays inside the output buffer. */
  ghost predicate Fits(input: seq<Sample>, block: nat, room: nat, encoder: Encoder)
    requires block > 0
  {
    var r := EncodeAll(Blocks(input, block), encoder, 0);
    r.Some? ==> |r.value| <= BufferSize(|input|, block, room)
  }

  /** An encoder that uses all its room in every call. */
  function FullEncoder(room: nat): (e: Encoder) {
    (samples, call) => Some(seq(room, i => 0))
  }

  lemma {:induction false} FullEncoderFills(blocks: seq<seq<Sample>>, room: nat, call: nat)
    ensures WithinRoom(FullEncoder(room), room)
    ensures var r := EncodeAll(blocks, FullEncoder(room), call); r.Some? && |r.value| == |blocks| * room
    decreases |blocks|
  {
    if blocks != [] {
      FullEncoderFills(blocks[1..], room, call + 1);
      OneMoreCall(|blocks| - 1, room);
    }
  }

  /** The output buffer is safe with every encoder that keeps to its room exactly when the file
      is a whole number of blocks; otherwise the full encoder writes past its end. */
  lemma BufferIsSafeExactly(input: seq<Sample>, block: nat, room: nat)
    requires |input| > 0 && block > 0 && room > 0
    ensures (forall encoder: Encoder :: WithinRoom(encoder, room) ==> Fits(input, block, room, encoder))
            <==> |input| % block == 0
    ensures WithinRoom(FullEncoder(room), room)
    ensures |input| % block != 0 ==> !Fits(input, block, room, FullEncoder(room))
  {
    hide WithinRoom, FullEncoder, BufferSize, Blocks, EncodeAll;
    OutputFits(|input|, block, room);
    BlocksCover(input, block);
    FullEncoderFills(Blocks(input, block), room, 0);
    if |input| % block == 0 {
      forall encoder: Encoder | WithinRoom(encoder, room)
        ensures Fits(input, block, room, encoder)
      {
        EncodedFits(Blocks(input, block), encoder, 0, room);
      }
    }
  }

  // ----- the capture loop -----

  /** One chunk, fixed by the encoder's input size for six channels. */
  const CHUNK := 6144

  function BufferSamples(rate: nat, seconds: nat): (n: nat)
    ensures n % CHUNK == 0
  {
    rate * seconds / CHUNK * CHUNK
  }

  /** The buffer holds as many whole chunks as fit into the duration of a file. */
  lemma FileLength(rate: nat, seconds: nat)
    ensures BufferSamples(rate, seconds) % 6144 == 0
    ensures BufferSamples(rate, seconds) <= rate * seconds < BufferSamples(rate, seconds) + 6144
  {
  }

  lemma RoomForAChunk(rate: nat, seconds: nat)
    ensures BufferSamples(rate, seconds) >= CHUNK <==> rate * seconds >= CHUNK
    ensures rate * seconds < CHUNK ==> BufferSamples(rate, seconds) == 0
  {
  }

  /** Two files of the last `slots` ones never share a slot. */
  lemma SlotsDiffer(i: nat, j: nat, slots: nat)
    requires slots > 0 && i < j < i + slots
    ensures SlotOf(i, slots) != SlotOf(j, slots)
  {
    assert i == slots * (i / slots) + i % slots && j == slots * (j / slots) + j % slots;
    var d := j / slots - i / slots;
    assert slots * d == slots * (j / slots) - slots * (i / slots);
    assert d >= 1 ==> slots * d >= slots;
    assert d <= 0 ==> slots * d <= 0;
  }

  lemma NextSlot(n: nat, slots: nat)
    requires slots > 0
    ensures SlotOf(SlotOf(n, slots) + 1, slots) == SlotOf(n + 1, slots)
  {
    var q, r := n / slots, n % slots;
    assert n == q * slots + r;
    assert (q + 1) * slots == q * slots + slots;
    if r + 1 == slots {
      Quotient(n + 1, slots, q + 1, 0);
      Quotient(slots, slots, 1, 0);
    } else {
      Quotient(n + 1, slots, q, r + 1);
      Quotient(r + 1, slots, 0, r + 1);
    }
  }

  function SlotOf(j: nat, slots: nat): (k: nat)
    requires slots > 0
    ensures k < slots
  {
    j % slots
  }

  /** What the encoder made of the sink's channels of one file. */
  function FileOutput(file: seq<Frame>, channels: seq<nat>, block: nat, encoder: Encoder): (r: Option<seq<bv8>>)
    requires Captured(file, channels) && block > 0
  {
    EncodeAll(Blocks(Project(file, channels), block), encoder, 0)
  }

  /** A completed file with the encoder it met. */
  datatype File = File(frames: seq<Frame>, encoder: Encoder)

  /** The file's slot holds its encoded audio and its number, if it could be encoded. */
  ghost predicate InSlot(j: nat, format: Format, complete: seq<File>, outputs: map<nat, seq<bv8>>, ids: map<nat, nat>) {
    var k := SlotOf(j, format.slots);
    && j < |complete| && |complete[j].frames| == format.size && Captured(complete[j].frames, format.channels)
    && var r := FileOutput(complete[j].frames, format.channels, format.block, complete[j].encoder);
    r.Some? ==> k in outputs && k in ids && ids[k] == j && outputs[k] == r.value
  }

  datatype AnyFormat = Format(size: nat, slots: nat, channels: seq<nat>, block: nat)

  type Format = f: AnyFormat | f.slots > 0 && f.block > 0 witness Format(0, 1, [], 1)

  /** File `j` is among the last `slots` of `n` files. */
  predicate Recent(j: nat, n: nat, slots: nat) { j < n <= j + slots }

  /** So do the slots of the last `slots` files. */
  ghost predicate RingHolds(format: Format, complete: seq<File>, outputs: map<nat, seq<bv8>>, ids: map<nat, nat>) {
    forall j: nat :: Recent(j, |complete|, format.slots) ==> InSlot(j, format, complete, outputs, ids)
  }

  /** A new file replaces the one that is `slots` files older, or if it cannot be encoded
      leaves the slots as they are. */
  lemma RingMovesOn(format: Format, complete: seq<File>, outputs: map<nat, seq<bv8>>, ids: map<nat, nat>,
                                       file: File)
    requires RingHolds(format, complete, outputs, ids)
    requires |file.frames| == format.size && Captured(file.frames, format.channels)
    ensures var k, n := SlotOf(|complete|, format.slots), |complete|;
            match FileOutput(file.frames, format.channels, format.block, file.encoder)
            case Some(bytes) => RingHolds(format, complete + [file], outputs[k := bytes], ids[k := n])
            case None => RingHolds(format, complete + [file], outputs, ids)
  {
    hide Captured, FileOutput, SlotOf;
    var n := |complete|;
    var k, m := SlotOf(n, format.slots), n + 1;
    var r := FileOutput(file.frames, format.channels, format.block, file.encoder);
    var outputs' := if r.Some? then outputs[k := r.value] else outputs;
    var ids' := if r.Some? then ids[k := n] else ids;
    forall j: nat | Recent(j, m, format.slots)
      ensures InSlot(j, format, complete + [file], outputs', ids')
    {
      if j < n {
        assert Recent(j, n, format.slots);
        assert InSlot(j, format, complete, outputs, ids);
        SlotsDiffer(j, n, format.slots);
      }
    }
  }

  class Capture {
    const rate: nat
    const seconds: nat
    const format: Format
    const buffer: array<Frame>
    var offset: nat
    var fileId: nat
    var fileCounter: nat
    var stream: seq<Sample>
    var outputs: map<nat, seq<bv8>>
    var ids: map<nat, nat>
    /** Everything captured: the complete files, and what belongs to the open one. */
    ghost var complete: seq<File>
    ghost var open: seq<Frame>

    ghost predicate Shape()
      reads this, buffer
    {
      && format.size == BufferSamples(rate, seconds) == buffer.Length
      && offset % CHUNK == 0 && (if format.size == 0 then offset == 0 else offset + CHUNK <= format.size)
    }

    /** Slot `j` modulo the number of files holds the latest completed file of that kind, and
        the open stream what has been captured since. */
    ghost predicate Valid()
      reads this, buffer
    {
      && Shape()
      && |complete| == fileCounter && fileId == SlotOf(fileCounter, format.slots)
      && |open| == offset && Captured(open, format.channels) && stream == Project(open, format.channels)
      && RingHolds(format, complete, outputs, ids)
    }

    constructor (rate: nat, seconds: nat, slots: nat, channels: seq<nat>, block: nat)
      requires slots > 0 && block > 0
      ensures Valid() && complete == [] && open == [] && fresh(buffer)
      ensures this.rate == rate && this.seconds == seconds
      ensures format == Format(BufferSamples(rate, seconds), slots, channels, block)
    {
      this.rate, this.seconds, format := rate, seconds, Format(BufferSamples(rate, seconds), slots, channels, block);
      buffer := new Frame[BufferSamples(rate, seconds)](_ => []);
      offset, fileId, fileCounter, stream := 0, 0, 0, [];
      outputs, ids := map[], map[];
      complete, open := [], [];
      new;
      ProjectNothing(channels);
      RoomForAChunk(rate, seconds);
    }

    /** Reads one chunk into the buffer. */
    method Read(chunk: seq<Frame>)
      requires |chunk| == CHUNK && offset + CHUNK <= buffer.Length
      modifies buffer
      ensures buffer[offset..offset + CHUNK] == chunk
    {
      var i := 0;
      while i < CHUNK
        invariant 0 <= i <= CHUNK
        invariant buffer[offset..offset + i] == chunk[..i]
      {
        buffer[offset + i] := chunk[i];
        i := i + 1;
      }
    }

    /** Appends the sink's channels of the chunk just read to the open stream. */
    method Save(ghost chunk: seq<Frame>)
      requires offset + CHUNK <= buffer.Length && buffer[offset..offset + CHUNK] == chunk
      requires Captured(chunk, format.channels)
      modifies this`stream
      ensures stream == old(stream) + Project(chunk, format.channels)
    {
      hide Project, ProjectFrame, Covers;
      var i := 0;
      ProjectNothing(format.channels);
      while i < CHUNK
        invariant 0 <= i <= CHUNK
        invariant stream == old(stream) + Project(chunk[..i], format.channels)
      {
        assert buffer[offset + i] == buffer[offset..offset + CHUNK][i] == chunk[i];
        SaveFrame(buffer[offset + i]);
        ProjectOneMore(chunk, format.channels, i);
        i := i + 1;
      }
      assert chunk[..i] == chunk;
    }

    method SaveFrame(frame: Frame)
      requires Covers(frame, format.channels)
      modifies this`stream
      ensures stream == old(stream) + ProjectFrame(frame, format.channels)
    {
      var c := 0;
      while c < |format.channels|
        invariant 0 <= c <= |format.channels|
        invariant stream == old(stream) + ProjectFrame(frame, format.channels)[..c]
      {
        stream := stream + [frame[format.channels[c]]];
        c := c + 1;
      }
    }

    /** One turn of the capture loop: read, save, and when the buffer is full close the file
        into its slot and open the next one. A buffer of less than a chunk is overrun by the
        first read, and that is where the model stops. */
    method Turn(chunk: seq<Frame>, encoder: Encoder) returns (overrun: bool)
      requires Valid() && |chunk| == CHUNK && Captured(chunk, format.channels)
      modifies this, buffer
      ensures Valid()
      ensures overrun <==> rate * seconds < CHUNK
      ensures overrun ==> complete == old(complete) && open == old(open) && outputs == old(outputs) && ids == old(ids)
      ensures !overrun ==> |old(open)| + CHUNK <= format.size
      ensures !overrun && |old(open)| + CHUNK < format.size ==>
                complete == old(complete) && open == old(open) + chunk && outputs == old(outputs) && ids == old(ids)
      ensures !overrun && |old(open)| + CHUNK == format.size ==>
                complete == old(complete) + [File(old(open) + chunk, encoder)] && open == []
    {
      hide Project, Captured, Covers, RingHolds;
      RoomForAChunk(rate, seconds);
      if offset + CHUNK > buffer.Length {
        return true;
      }
      Read(chunk);
      Save(chunk);
      ProjectConcat(open, chunk, format.channels);
      open := open + chunk;
      offset := offset + CHUNK;
      if offset + CHUNK > format.size {
        CloseFile(encoder);
        ProjectNothing(format.channels);
      }
      overrun := false;
    }

    /** Encodes the open file and stores it in its slot, over the file that was there. */
    method CloseFile(encoder: Encoder)
      requires |complete| == fileCounter && fileId == SlotOf(fileCounter, format.slots)
      requires |open| == format.size && Captured(open, format.channels) && stream == Project(open, format.channels)
      requires RingHolds(format, complete, outputs, ids)
      modifies this
      ensures complete == old(complete) + [File(old(open), encoder)] && open == [] && stream == [] && offset == 0
      ensures fileCounter == old(fileCounter) + 1 && fileId == SlotOf(fileCounter, format.slots)
      ensures RingHolds(format, complete, outputs, ids)
      ensures var r := EncodeAll(Blocks(old(stream), format.block), encoder, 0);
              && outputs == (if r.Some? then old(outputs)[old(fileId) := r.value] else old(outputs))
              && ids == (if r.Some? then old(ids)[old(fileId) := old(fileCounter)] else old(ids))
    {
      hide Project, Captured, Covers, SlotOf, RingHolds, EncodeAll, Blocks;
      RingMovesOn(format, complete, outputs, ids, File(open, encoder));
      var output, _ := Encode(stream, format.block, encoder);
      if output.Some? {
        outputs := outputs[fileId := output.value];
        ids := ids[fileId := fileCounter];
      }
      complete := complete + [File(open, encoder)];
      NextSlot(fileCounter, format.slots);
      fileId := SlotOf(fileId + 1, format.slots);
      fileCounter := fileCounter + 1;
      offset := 0;
      stream, open := [], [];
    }
  }

  lemma ProjectOneMore(frames: seq<Frame>, channels: seq<nat>, i: nat)
    requires Captured(frames, channels) && i < |frames|
    ensures Captured(frames[..i], channels) && Captured(frames[..i + 1], channels)
    ensures Project(frames[..i + 1], channels) == Project(frames[..i], channels) + ProjectFrame(frames[i], channels)
  {
    hide Covers, ProjectFrame;
    assert frames[..i + 1][..i] == frames[..i];
  }
}
