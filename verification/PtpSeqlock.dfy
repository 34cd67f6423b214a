// The shared-memory clock segment.
module PtpSeqlock {
  // The writer publishes snapshots between two increments of a generation counter. Memory is
  // sequentially consistent and accessed one 32-bit word at a time. The writer records, as ghost
  // state, the memory after every single store. A reader is given a schedule that says at which
  // point of that recording each of its loads happens, so that quantifying over schedules
  // quantifies over all interleavings of the two processes.

  import opened Arithmetic

  type Word = w: int | 0 <= w < 0x1_0000_0000

  const MAGIC: Word := 0x50544343
  const VERSION: Word := 1

  // Word offsets in the segment; 64-bit fields take a low and a high word.
  const WORDS := 18
  const MAGIC_AT := 0
  const VERSION_AT := 1
  const COUNT_AT := 2
  const LOCK_STATE_AT := 3
  const GMID_AT := 4
  const OFFSET_AT := 6
  const FREQ_AT := 8
  const TAI_AT := 10
  const MONOTONIC_AT := 12
  const NETWORK_JITTER_AT := 14
  const CLOCK_JITTER_AT := 15

  const ATTEMPTS := 5

  datatype Wide = Wide(lo: Word, hi: Word)

  /** What one call of the writer publishes. */
  datatype Sample = Sample(lockState: Word, gmid: Wide, offset: Wide, freq: Wide,
                           networkJitter: Word, clockJitter: Word, tai: Wide, monotonic: Wide)

  /** The memory at one instant; `total` is the counter before reduction to 32 bits. */
  datatype Snap = Snap(words: seq<Word>, total: nat)

  /** The segment as it stands once generation `gen` is complete. */
  function Image(gen: nat, s: Sample): (words: seq<Word>)
    ensures |words| == WORDS
  {
    [MAGIC, VERSION, (2 * gen) % 0x1_0000_0000, s.lockState,
     s.gmid.lo, s.gmid.hi, s.offset.lo, s.offset.hi, s.freq.lo, s.freq.hi,
     s.tai.lo, s.tai.hi, s.monotonic.lo, s.monotonic.hi,
     s.networkJitter, s.clockJitter, 0, 0]
  }

  /** The writer's unsigned 32-bit increment. */
  function Increment(count: Word): (r: Word) {
    if count == 0xFFFF_FFFF then 0 else count + 1
  }

  lemma IncrementCounts(count: Word, total: nat)
    requires count == total % 0x1_0000_0000
    ensures Increment(count) == (total + 1) % 0x1_0000_0000
  {
  }

  const BLANK := Sample(0, Wide(0, 0), Wide(0, 0), Wide(0, 0), 0, 0, Wide(0, 0), Wide(0, 0))

  /** Memory while the segment is being created: cleared, then magic, then version. */
  ghost predicate Embryo(words: seq<Word>) {
    && |words| == WORDS
    && words[MAGIC_AT] in {0, MAGIC}
    && words[VERSION_AT] in {0, VERSION}
    && forall w :: 2 <= w < WORDS ==> words[w] == 0
  }

  predicate Created(words: seq<Word>)
    requires |words| == WORDS
  {
    words[MAGIC_AT] == MAGIC && words[VERSION_AT] == VERSION
  }

  /** A memory with an even counter is that generation, or the segment being created. */
  ghost predicate Faithful(snap: Snap, history: seq<Sample>) {
    && |snap.words| == WORDS
    && snap.words[COUNT_AT] == snap.total % 0x1_0000_0000
    && (snap.total % 2 == 0 ==>
          && snap.total / 2 < |history|
          && (snap.words == Image(snap.total / 2, history[snap.total / 2])
              || (snap.total == 0 && Embryo(snap.words))))
  }

  /** `trace` is a run of the writer that published `history`, generation 0 being the
      initial contents. While the counter is odd nothing is said about the data words. */
  ghost predicate Recorded(trace: seq<Snap>, history: seq<Sample>) {
    && |trace| > 0 && |history| > 0 && history[0] == BLANK
    && (forall i :: 0 <= i < |trace| ==> Faithful(trace[i], history))
    && (forall i, j :: 0 <= i <= j < |trace| ==> trace[i].total <= trace[j].total)
    && (forall i, j :: 0 <= i <= j < |trace| && Created(trace[i].words) ==> Created(trace[j].words))
  }

  /** The writer's own stores, in program order, applied to a whole memory. */
  function Stores(m: seq<Word>, s: Sample): (r: seq<Word>)
    requires |m| == WORDS
    ensures |r| == WORDS
  {
    m[LOCK_STATE_AT := s.lockState]
     [GMID_AT := s.gmid.lo][GMID_AT + 1 := s.gmid.hi]
     [OFFSET_AT := s.offset.lo][OFFSET_AT + 1 := s.offset.hi]
     [FREQ_AT := s.freq.lo][FREQ_AT + 1 := s.freq.hi]
     [NETWORK_JITTER_AT := s.networkJitter]
     [CLOCK_JITTER_AT := s.clockJitter]
     [TAI_AT := s.tai.lo][TAI_AT + 1 := s.tai.hi]
     [MONOTONIC_AT := s.monotonic.lo][MONOTONIC_AT + 1 := s.monotonic.hi]
  }

  /** No field of the previous generation survives a complete publish. */
  lemma StoresCoverTheSample(gen: nat, previous: Sample, s: Sample, odd: Word)
    ensures Stores(Image(gen, previous)[COUNT_AT := odd], s)[COUNT_AT := (2 * gen + 2) % 0x1_0000_0000]
            == Image(gen + 1, s)
  {
  }

  /** The two memories differ by at most the store of one word. */
  ghost predicate OneStore(m: seq<Word>, m': seq<Word>) {
    |m| == |m'| && exists at :: 0 <= at < |m| && m' == m[at := m'[at]]
  }

  /** Nothing happens between two recorded memories: readers can see every store. */
  ghost predicate StoreByStore(trace: seq<Snap>) {
    forall i :: 0 <= i < |trace| - 1 ==> OneStore(trace[i].words, trace[i + 1].words)
  }

  // ----- a whole run of the writer -----

  /** The words a publish stores to, in order. */
  const ORDER: seq<nat> := [COUNT_AT, LOCK_STATE_AT, GMID_AT, GMID_AT + 1, OFFSET_AT, OFFSET_AT + 1, FREQ_AT, FREQ_AT + 1,
                            NETWORK_JITTER_AT, CLOCK_JITTER_AT, TAI_AT, TAI_AT + 1, MONOTONIC_AT, MONOTONIC_AT + 1, COUNT_AT]

  const STORES := 15

  /** The value of store `k` of a publish. */
  function ValueAt(gen: nat, s: Sample, k: nat): (value: Word)
    requires k < STORES
  {
    if k == 0 then (2 * gen + 1) % 0x1_0000_0000 else Image(gen + 1, s)[ORDER[k]]
  }

  /** The memory after the first `k` stores of the publish that follows generation `gen`. */
  function During(gen: nat, previous: Sample, s: Sample, k: nat): (words: seq<Word>)
    requires k <= STORES
    ensures |words| == WORDS
  {
    if k == 0 then Image(gen, previous)
    else During(gen, previous, s, k - 1)[ORDER[k - 1] := ValueAt(gen, s, k - 1)]
  }

  lemma PublishEnds(gen: nat, previous: Sample, s: Sample)
    ensures During(gen, previous, s, STORES) == Image(gen + 1, s)
  {
    hide During;
    var odd := (2 * gen + 1) % 0x1_0000_0000;
    DuringSteps(gen, previous, s, 0);
    DuringSteps(gen, previous, s, 4);
    DuringSteps(gen, previous, s, 8);
    LastSteps(gen, previous, s);
    assert During(gen, previous, s, 14) == Stores(Image(gen, previous)[COUNT_AT := odd], s);
    StoresCoverTheSample(gen, previous, s, odd);
  }

  lemma DuringSteps(gen: nat, previous: Sample, s: Sample, k: nat)
    requires k in {0, 4, 8}
    ensures k == 0 ==> During(gen, previous, s, 4) ==
                       Image(gen, previous)[COUNT_AT := (2 * gen + 1) % 0x1_0000_0000][LOCK_STATE_AT := s.lockState]
                       [GMID_AT := s.gmid.lo][GMID_AT + 1 := s.gmid.hi]
    ensures k == 4 ==> During(gen, previous, s, 8) ==
                       During(gen, previous, s, 4)[OFFSET_AT := s.offset.lo][OFFSET_AT + 1 := s.offset.hi]
                       [FREQ_AT := s.freq.lo][FREQ_AT + 1 := s.freq.hi]
    ensures k == 8 ==> During(gen, previous, s, 12) ==
                       During(gen, previous, s, 8)[NETWORK_JITTER_AT := s.networkJitter][CLOCK_JITTER_AT := s.clockJitter]
                       [TAI_AT := s.tai.lo][TAI_AT + 1 := s.tai.hi]
  {
    assert During(gen, previous, s, k + 1) == During(gen, previous, s, k)[ORDER[k] := During(gen, previous, s, k + 1)[ORDER[k]]];
    assert During(gen, previous, s, k + 2) == During(gen, previous, s, k + 1)[ORDER[k + 1] := Image(gen + 1, s)[ORDER[k + 1]]];
    assert During(gen, previous, s, k + 3) == During(gen, previous, s, k + 2)[ORDER[k + 2] := Image(gen + 1, s)[ORDER[k + 2]]];
    assert During(gen, previous, s, k + 4) == During(gen, previous, s, k + 3)[ORDER[k + 3] := Image(gen + 1, s)[ORDER[k + 3]]];
  }

  lemma LastSteps(gen: nat, previous: Sample, s: Sample)
    ensures During(gen, previous, s, 14) ==
            During(gen, previous, s, 12)[MONOTONIC_AT := s.monotonic.lo][MONOTONIC_AT + 1 := s.monotonic.hi]
    ensures During(gen, previous, s, STORES) ==
            During(gen, previous, s, 14)[COUNT_AT := (2 * gen + 2) % 0x1_0000_0000]
  {
    assert During(gen, previous, s, 13) == During(gen, previous, s, 12)[MONOTONIC_AT := s.monotonic.lo];
    assert 2 * (gen + 1) == 2 * gen + 2;
  }

  const CLEARED: seq<Word> := [0, 0, 0, 0, 0, 0, 0, 0, 0, 0, 0, 0, 0, 0, 0, 0, 0, 0]

  /** The memory after `i` stores of a writer that creates the segment and publishes `history`. */
  function SnapAt(history: seq<Sample>, i: nat): (snap: Snap)
    requires |history| > 0 && i <= 2 + STORES * (|history| - 1)
  {
    if i == 0 then Snap(CLEARED, 0)
    else if i == 1 then Snap(CLEARED[MAGIC_AT := MAGIC], 0)
    else
      var gen, k := (i - 2) / STORES, (i - 2) % STORES;
      if k == 0 then Snap(Image(gen, history[gen]), 2 * gen)
      else Snap(During(gen, history[gen], history[gen + 1], k), 2 * gen + 1)
  }

  function WriterTrace(history: seq<Sample>): (trace: seq<Snap>)
    requires |history| > 0
  {
    seq(3 + STORES * (|history| - 1), i requires 0 <= i < 3 + STORES * (|history| - 1) => SnapAt(history, i))
  }

  lemma {:induction false} DuringKeepsMarks(gen: nat, previous: Sample, s: Sample, k: nat)
    requires k <= STORES
    ensures Created(During(gen, previous, s, k))
    ensures 0 < k < STORES ==> During(gen, previous, s, k)[COUNT_AT] == (2 * gen + 1) % 0x1_0000_0000
  {
    if k > 0 {
      DuringKeepsMarks(gen, previous, s, k - 1);
    }
  }

  lemma NextStore(gen: nat, previous: Sample, s: Sample, k: nat)
    requires k < STORES
    ensures OneStore(During(gen, previous, s, k), During(gen, previous, s, k + 1))
  {
    var m, m' := During(gen, previous, s, k), During(gen, previous, s, k + 1);
    assert m' == m[ORDER[k] := m'[ORDER[k]]];
  }

  /** Every memory of that run is one store away from the next. */
  lemma OneStoreApart(history: seq<Sample>, i: nat)
    requires |history| > 0 && history[0] == BLANK && i < 2 + STORES * (|history| - 1)
    ensures OneStore(SnapAt(history, i).words, SnapAt(history, i + 1).words)
  {
    hide During, OneStore;
    if i < 2 {
      Creation(i);
    } else {
      var gen, k := (i - 2) / STORES, (i - 2) % STORES;
      NothingStored(gen, history[gen], history[gen + 1]);
      PublishEnds(gen, history[gen], history[gen + 1]);
      NextStore(gen, history[gen], history[gen + 1], k);
    }
  }

  lemma NothingStored(gen: nat, previous: Sample, s: Sample)
    ensures During(gen, previous, s, 0) == Image(gen, previous)
  {
  }

  lemma Creation(i: nat)
    requires i < 2
    ensures OneStore(if i == 0 then CLEARED else CLEARED[MAGIC_AT := MAGIC],
                     if i == 0 then CLEARED[MAGIC_AT := MAGIC] else Image(0, BLANK))
    ensures Embryo(CLEARED) && Embryo(CLEARED[MAGIC_AT := MAGIC])
  {
    var marked := CLEARED[MAGIC_AT := MAGIC];
    assert marked == CLEARED[MAGIC_AT := marked[MAGIC_AT]];
    assert Image(0, BLANK) == marked[VERSION_AT := Image(0, BLANK)[VERSION_AT]];
  }

  lemma SnapFaithful(history: seq<Sample>, i: nat)
    requires |history| > 0 && history[0] == BLANK && i <= 2 + STORES * (|history| - 1)
    ensures Faithful(SnapAt(history, i), history) && |SnapAt(history, i).words| == WORDS
    ensures i >= 2 ==> Created(SnapAt(history, i).words)
  {
    hide During;
    if i < 2 {
      hide Embryo;
      Creation(0);
    } else {
      var gen, k := (i - 2) / STORES, (i - 2) % STORES;
      if k > 0 {
        DuringKeepsMarks(gen, history[gen], history[gen + 1], k);
      } else {
        assert SnapAt(history, i) == Snap(Image(gen, history[gen]), 2 * gen);
      }
    }
  }

  lemma TotalsGrow(history: seq<Sample>, i: nat, j: nat)
    requires |history| > 0 && i <= j <= 2 + STORES * (|history| - 1)
    ensures SnapAt(history, i).total <= SnapAt(history, j).total
  {
    hide During;
  }

  /** That run is a recording, as the writer object keeps it, in which every store shows. */
  lemma WriterTraceIsRecorded(history: seq<Sample>)
    requires |history| > 0 && history[0] == BLANK
    ensures Recorded(WriterTrace(history), history) && StoreByStore(WriterTrace(history))
  {
    hide SnapAt, Faithful, OneStore, Created;
    var trace := WriterTrace(history);
    forall i | 0 <= i < |trace|
      ensures Faithful(trace[i], history) && |trace[i].words| == WORDS && (i >= 2 ==> Created(trace[i].words))
    {
      SnapFaithful(history, i);
    }
    forall i, j | 0 <= i <= j < |trace|
      ensures trace[i].total <= trace[j].total
    {
      TotalsGrow(history, i, j);
    }
    forall i | 0 <= i < |trace| - 1
      ensures OneStore(trace[i].words, trace[i + 1].words)
    {
      OneStoreApart(history, i);
    }
    NotYetCreated(history);
  }

  lemma NotYetCreated(history: seq<Sample>)
    requires |history| > 0
    ensures !Created(SnapAt(history, 0).words)
    ensures |history| > 0 ==> !Created(SnapAt(history, 1).words)
  {
  }

  // ----- the writer -----

  lemma EarlierSnaps(history: seq<Sample>, s: Sample, i: nat)
    requires |history| > 0 && i <= 2 + STORES * (|history| - 1)
    ensures SnapAt(history + [s], i) == SnapAt(history, i)
  {
    hide During;
  }

  /** The run of `history`, with the first `k` stores of the publish of `s`. */
  function TraceUpTo(history: seq<Sample>, s: Sample, k: nat): (trace: seq<Snap>)
    requires |history| > 0 && k <= STORES
  {
    seq(3 + STORES * (|history| - 1) + k,
        i requires 0 <= i < 3 + STORES * (|history| - 1) + k => SnapAt(history + [s], i))
  }

  lemma TraceStarts(history: seq<Sample>, s: Sample)
    requires |history| > 0
    ensures TraceUpTo(history, s, 0) == WriterTrace(history)
    ensures TraceUpTo(history, s, STORES) == WriterTrace(history + [s])
  {
    hide SnapAt;
    forall i: nat | i <= 2 + STORES * (|history| - 1)
      ensures SnapAt(history + [s], i) == SnapAt(history, i)
    {
      EarlierSnaps(history, s, i);
    }
  }

  lemma TraceGrows(history: seq<Sample>, s: Sample, k: nat)
    requires |history| > 0 && k < STORES
    ensures var gen := |history| - 1;
            TraceUpTo(history, s, k + 1) == TraceUpTo(history, s, k)
              + [Snap(During(gen, history[gen], s, k + 1), if k + 1 < STORES then 2 * gen + 1 else 2 * gen + 2)]
  {
    hide During;
    var gen := |history| - 1;
    PublishEnds(gen, history[gen], s);
    var i := 2 + STORES * gen + k + 1;
    assert (i - 2) / STORES == (if k + 1 < STORES then gen else gen + 1);
    assert (i - 2) % STORES == (if k + 1 < STORES then k + 1 else 0);
  }

  class Writer {
    var mem: array<Word>
    /** The memory after every store so far, and the samples published. */
    ghost var trace: seq<Snap>
    ghost var history: seq<Sample>

    /** Between publishes the segment holds the newest generation, and exactly the stores of
        the writer's run have been recorded. */
    ghost predicate Valid()
      reads this, mem
    {
      && mem.Length == WORDS && |history| > 0 && history[0] == BLANK
      && trace == WriterTrace(history)
      && mem[..] == Image(|history| - 1, history[|history| - 1])
    }

    /** Within the publish of `s`, after `k` stores. */
    ghost predicate Publishing(s: Sample, k: nat)
      reads this, mem
      requires k <= STORES
    {
      && mem.Length == WORDS && |history| > 0 && history[0] == BLANK
      && trace == TraceUpTo(history, s, k)
      && mem[..] == During(|history| - 1, history[|history| - 1], s, k)
    }

    constructor ()
      ensures Valid() && fresh(mem) && history == [BLANK]
    {
      mem := new Word[WORDS](_ => 0);
      history := [BLANK];
      new;
      assert mem[..] == CLEARED;
      trace := [Snap(mem[..], 0)];
      mem[MAGIC_AT] := MAGIC;
      assert mem[..] == CLEARED[MAGIC_AT := MAGIC];
      trace := trace + [Snap(mem[..], 0)];
      mem[VERSION_AT] := VERSION;
      assert mem[..] == Image(0, BLANK);
      trace := trace + [Snap(mem[..], 0)];
      assert trace == WriterTrace(history);
    }

    /** One store; readers may look at the memory after it. */
    method Store(at: nat, value: Word, ghost s: Sample, ghost k: nat)
      requires k < STORES && Publishing(s, k) && at == ORDER[k]
      requires value == ValueAt(|history| - 1, s, k)
      modifies this`trace, mem
      ensures Publishing(s, k + 1)
    {
      mem[at] := value;
      ghost var gen := |history| - 1;
      TraceGrows(history, s, k);
      trace := trace + [Snap(mem[..], if k + 1 < STORES then 2 * gen + 1 else 2 * gen + 2)];
    }

    method StoreWide(at: nat, value: Wide, ghost s: Sample, ghost k: nat)
      requires k + 1 < STORES && Publishing(s, k) && at == ORDER[k] && at + 1 == ORDER[k + 1]
      requires value == Wide(ValueAt(|history| - 1, s, k), ValueAt(|history| - 1, s, k + 1))
      modifies this`trace, mem
      ensures Publishing(s, k + 2)
    {
      Store(at, value.lo, s, k);
      Store(at + 1, value.hi, s, k + 1);
    }

    /** The atomic increment before and after the data. */
    method Count(ghost s: Sample, ghost k: nat)
      requires k in {0, STORES - 1} && Publishing(s, k)
      modifies this`trace, mem
      ensures Publishing(s, k + 1)
    {
      ghost var gen := |history| - 1;
      CountBefore(gen, history[gen], s, k);
      assert mem[COUNT_AT] == During(gen, history[gen], s, k)[COUNT_AT];
      IncrementCounts(mem[COUNT_AT], if k == 0 then 2 * gen else 2 * gen + 1);
      Store(COUNT_AT, Increment(mem[COUNT_AT]), s, k);
    }

    /** Publishes one sample between two increments of the counter. */
    method Publish(s: Sample)
      requires Valid()
      modifies this, mem
      ensures Valid() && mem == old(mem) && history == old(history) + [s]
      ensures Recorded(trace, history) && StoreByStore(trace) && old(trace) <= trace
    {
      hide During, TraceUpTo, WriterTrace, Recorded, StoreByStore;
      ghost var gen := |history| - 1;
      TraceStarts(history, s);
      NothingStored(gen, history[gen], s);
      Count(s, 0);
      StoreClock(s);
      StoreTimes(s);
      Count(s, STORES - 1);
      PublishEnds(gen, history[gen], s);
      RunIsPrefix(history, s);
      history := history + [s];
      WriterTraceIsRecorded(history);
    }

    method StoreClock(s: Sample)
      requires Publishing(s, 1)
      modifies this`trace, mem
      ensures Publishing(s, 8)
    {
      ValuesInOrder(|history| - 1, s);
      hide ValueAt, Publishing;
      Store(LOCK_STATE_AT, s.lockState, s, 1);
      StoreWide(GMID_AT, s.gmid, s, 2);
      StoreWide(OFFSET_AT, s.offset, s, 4);
      StoreWide(FREQ_AT, s.freq, s, 6);
    }

    method StoreTimes(s: Sample)
      requires Publishing(s, 8)
      modifies this`trace, mem
      ensures Publishing(s, STORES - 1)
    {
      ValuesInOrder(|history| - 1, s);
      hide ValueAt, Publishing;
      Store(NETWORK_JITTER_AT, s.networkJitter, s, 8);
      Store(CLOCK_JITTER_AT, s.clockJitter, s, 9);
      StoreWide(TAI_AT, s.tai, s, 10);
      StoreWide(MONOTONIC_AT, s.monotonic, s, 12);
    }
  }

  /** The data stores of a publish write the fields of the sample. */
  lemma ValuesInOrder(gen: nat, s: Sample)
    ensures ValueAt(gen, s, 1) == s.lockState
    ensures Wide(ValueAt(gen, s, 2), ValueAt(gen, s, 3)) == s.gmid
    ensures Wide(ValueAt(gen, s, 4), ValueAt(gen, s, 5)) == s.offset
    ensures Wide(ValueAt(gen, s, 6), ValueAt(gen, s, 7)) == s.freq
    ensures ValueAt(gen, s, 8) == s.networkJitter && ValueAt(gen, s, 9) == s.clockJitter
    ensures Wide(ValueAt(gen, s, 10), ValueAt(gen, s, 11)) == s.tai
    ensures Wide(ValueAt(gen, s, 12), ValueAt(gen, s, 13)) == s.monotonic
  {
  }

  lemma RunIsPrefix(history: seq<Sample>, s: Sample)
    requires |history| > 0
    ensures WriterTrace(history) <= WriterTrace(history + [s])
  {
    hide SnapAt;
    forall i: nat | i <= 2 + STORES * (|history| - 1)
      ensures SnapAt(history + [s], i) == SnapAt(history, i)
    {
      EarlierSnaps(history, s, i);
    }
  }

  lemma CountBefore(gen: nat, previous: Sample, s: Sample, k: nat)
    requires k in {0, STORES - 1}
    ensures During(gen, previous, s, k)[COUNT_AT] == (if k == 0 then 2 * gen else 2 * gen + 1) % 0x1_0000_0000
    ensures ValueAt(gen, s, k) == (if k == 0 then 2 * gen + 1 else 2 * gen + 2) % 0x1_0000_0000
  {
    DuringKeepsMarks(gen, previous, s, k);
    assert 2 * (gen + 1) == 2 * gen + 2;
  }

  // ----- the reader -----

  /** When the loads of one attempt happen: the counter, each word of the copy (in any
      order), and the counter again. */
  datatype Attempt = Attempt(before: nat, copy: seq<nat>, after: nat)

  ghost predicate Timed(trace: seq<Snap>, a: Attempt) {
    && |a.copy| == WORDS
    && a.before <= a.after < |trace|
    && forall w :: 0 <= w < WORDS ==> a.before <= a.copy[w] <= a.after
  }

  /** Five attempts, one after the other, none of which outlasts 2^31 publishes. */
  ghost predicate Schedule(trace: seq<Snap>, attempts: seq<Attempt>) {
    && |attempts| == ATTEMPTS
    && (forall k :: 0 <= k < ATTEMPTS ==> Timed(trace, attempts[k]) && NoWrap(trace, attempts[k]))
    && (forall k :: 0 <= k < ATTEMPTS - 1 ==> attempts[k].after <= attempts[k + 1].before)
  }

  ghost predicate NoWrap(trace: seq<Snap>, a: Attempt)
    requires Timed(trace, a)
  {
    trace[a.after].total < trace[a.before].total + 0x1_0000_0000
  }

  /** No publish is under way at any point of the attempt. */
  ghost predicate Undisturbed(trace: seq<Snap>, a: Attempt)
    requires Timed(trace, a)
  {
    trace[a.before].total % 2 == 0 && trace[a.before].total == trace[a.after].total
  }

  /** `out` is exactly generation `gen`, which is no older than what was complete when the
      read began and no newer than what was complete when it ended. */
  ghost predicate Observed(trace: seq<Snap>, history: seq<Sample>, start: nat, end: nat,
                           out: seq<Word>, gen: nat)
    requires start < |trace| && end < |trace|
  {
    && gen < |history|
    && out == Image(gen, history[gen])
    && trace[start].total <= 2 * gen <= trace[end].total
  }

  ghost predicate ObservedOne(trace: seq<Snap>, history: seq<Sample>, start: nat, end: nat, out: seq<Word>)
    requires start < |trace| && end < |trace|
  {
    exists gen :: Observed(trace, history, start, end, out, gen)
  }

  ghost predicate CopyOf(trace: seq<Snap>, history: seq<Sample>, a: Attempt, out: seq<Word>)
    requires Recorded(trace, history) && Timed(trace, a)
  {
    |out| == WORDS && forall w :: 0 <= w < WORDS ==> out[w] == trace[a.copy[w]].words[w]
  }

  /** A copy whose two counter loads agree comes from one generation, or from the creation. */
  lemma CopyIsOneGeneration(trace: seq<Snap>, history: seq<Sample>, a: Attempt, out: seq<Word>)
    requires Recorded(trace, history) && Timed(trace, a) && Undisturbed(trace, a)
    requires CopyOf(trace, history, a, out)
    ensures Created(trace[a.before].words) ==> Created(out)
    ensures Created(out) ==> Observed(trace, history, a.before, a.after, out, trace[a.before].total / 2)
  {
  }

  /** The copy of the whole segment, word by word. */
  method Copy(trace: seq<Snap>, ghost history: seq<Sample>, a: Attempt) returns (out: seq<Word>)
    requires Recorded(trace, history) && Timed(trace, a)
    ensures CopyOf(trace, history, a, out)
  {
    out := [];
    while |out| < WORDS
      invariant |out| <= WORDS
      invariant forall v :: 0 <= v < |out| ==> out[v] == trace[a.copy[v]].words[v]
    {
      out := out + [trace[a.copy[|out|]].words[|out|]];
    }
  }

  /** One attempt: counter, copy, counter. */
  method Try(trace: seq<Snap>, ghost history: seq<Sample>, a: Attempt) returns (good: bool, out: seq<Word>)
    requires Recorded(trace, history) && Timed(trace, a) && NoWrap(trace, a)
    ensures good <==> Undisturbed(trace, a)
    ensures good ==> CopyOf(trace, history, a, out)
  {
    good, out := false, [];
    var before := trace[a.before].words[COUNT_AT];
    if before % 2 == 0 {
      out := Copy(trace, history, a);
      good := trace[a.after].words[COUNT_AT] == before;
    }
    EqualCountersMeanNoWrite(trace, history, a);
  }

  /** Some of the first `n` attempts overlaps no publish. */
  ghost predicate SomeUndisturbed(trace: seq<Snap>, attempts: seq<Attempt>, n: nat)
    requires Schedule(trace, attempts) && n <= ATTEMPTS
  {
    exists k :: 0 <= k < n && Undisturbed(trace, attempts[k])
  }

  /** `out` is what the undisturbed attempt `k` copied. */
  ghost predicate Kept(trace: seq<Snap>, history: seq<Sample>, attempts: seq<Attempt>, k: nat, out: seq<Word>)
    requires Recorded(trace, history) && Schedule(trace, attempts) && k < ATTEMPTS
  {
    Undisturbed(trace, attempts[k]) && CopyOf(trace, history, attempts[k], out)
  }

  /** The retry loop. A read that reports success holds one whole generation; it does report
      success when the segment exists and some attempt overlaps no publish. */
  method Read(trace: seq<Snap>, ghost history: seq<Sample>, attempts: seq<Attempt>)
    returns (ok: bool, out: seq<Word>)
    requires Recorded(trace, history) && Schedule(trace, attempts)
    ensures ok ==> ObservedOne(trace, history, attempts[0].before, attempts[ATTEMPTS - 1].after, out)
    ensures Created(trace[attempts[0].before].words) && SomeUndisturbed(trace, attempts, ATTEMPTS) ==> ok
  {
    out := [];
    var consistent := false;
    var attempt := 0;
    while attempt < ATTEMPTS && !consistent
      invariant 0 <= attempt <= ATTEMPTS
      invariant !consistent ==> !SomeUndisturbed(trace, attempts, attempt)
      invariant consistent ==> attempt > 0 && Kept(trace, history, attempts, attempt - 1, out)
    {
      consistent, out := Try(trace, history, attempts[attempt]);
      attempt := attempt + 1;
    }
    ok := false;
    if consistent {
      ConsistentCopy(trace, history, attempts, attempt - 1, out);
      ok := out[MAGIC_AT] == MAGIC && out[VERSION_AT] == VERSION;
    }
  }

  lemma ConsistentCopy(trace: seq<Snap>, history: seq<Sample>, attempts: seq<Attempt>,
                                          k: nat, out: seq<Word>)
    requires Recorded(trace, history) && Schedule(trace, attempts) && k < ATTEMPTS
    requires Kept(trace, history, attempts, k, out)
    ensures |out| == WORDS && (Created(trace[attempts[0].before].words) ==> Created(out))
    ensures Created(out) ==>
              ObservedOne(trace, history, attempts[0].before, attempts[ATTEMPTS - 1].after, out)
  {
    var a := attempts[k];
    var start, end := attempts[0].before, attempts[ATTEMPTS - 1].after;
    WindowWithinSchedule(trace, attempts, k);
    CopyIsOneGeneration(trace, history, a, out);
    assert trace[start].total <= trace[a.before].total && trace[a.after].total <= trace[end].total;
    assert Created(out) ==> Observed(trace, history, start, end, out, trace[a.before].total / 2);
  }

  /** The reader's two tests on 32-bit counters decide whether a publish overlapped the copy. */
  lemma EqualCountersMeanNoWrite(trace: seq<Snap>, history: seq<Sample>, a: Attempt)
    requires Recorded(trace, history) && Timed(trace, a) && NoWrap(trace, a)
    ensures Faithful(trace[a.before], history) && Faithful(trace[a.after], history)
    ensures Undisturbed(trace, a) <==>
            && trace[a.before].words[COUNT_AT] % 2 == 0
            && trace[a.after].words[COUNT_AT] == trace[a.before].words[COUNT_AT]
  {
  }

  /** Without a bound on the attempt the two tests only see the counter modulo 2^32. */
  lemma CounterTestsExactly(trace: seq<Snap>, history: seq<Sample>, a: Attempt)
    requires Recorded(trace, history) && Timed(trace, a)
    ensures |trace[a.before].words| == WORDS && |trace[a.after].words| == WORDS
    ensures trace[a.before].words[COUNT_AT] % 2 == 0
            && trace[a.after].words[COUNT_AT] == trace[a.before].words[COUNT_AT]
            <==> trace[a.before].total % 2 == 0
                 && (trace[a.after].total - trace[a.before].total) % 0x1_0000_0000 == 0
  {
    hide Embryo, Image;
    assert Faithful(trace[a.before], history) && Faithful(trace[a.after], history);
    assert trace[a.before].total <= trace[a.after].total;
    SameResidue(trace[a.before].total, trace[a.after].total);
  }

  lemma SameResidue(x: nat, y: nat)
    ensures x % 0x1_0000_0000 == y % 0x1_0000_0000 <==> (y - x) % 0x1_0000_0000 == 0
    ensures (x % 0x1_0000_0000) % 2 == x % 2
  {
    var n := 0x1_0000_0000;
    var q, r := x / n, x % n;
    assert x == q * n + r && y == (y / n) * n + y % n;
    if y % n == r {
      Quotient(y - x, n, y / n - q, 0);
    }
    if (y - x) % n == 0 {
      Quotient(y, n, (y - x) / n + q, r);
    }
  }

  lemma WindowWithinSchedule(trace: seq<Snap>, attempts: seq<Attempt>, k: nat)
    requires Schedule(trace, attempts) && k < ATTEMPTS
    ensures attempts[0].before <= attempts[k].before && attempts[k].after <= attempts[ATTEMPTS - 1].after
  {
    assert attempts[0].after <= attempts[1].before && attempts[1].after <= attempts[2].before;
    assert attempts[2].after <= attempts[3].before && attempts[3].after <= attempts[4].before;
  }

  /** A read that starts after another one ended never reports an older generation. */
  lemma ReadsNeverGoBack(trace: seq<Snap>, history: seq<Sample>,
                           start1: nat, end1: nat, out1: seq<Word>, gen1: nat,
                           start2: nat, end2: nat, out2: seq<Word>, gen2: nat)
    requires Recorded(trace, history) && start1 <= end1 <= start2 <= end2 < |trace|
    requires Observed(trace, history, start1, end1, out1, gen1)
    requires Observed(trace, history, start2, end2, out2, gen2)
    ensures gen1 <= gen2
  {
    assert trace[end1].total <= trace[start2].total;
  }

  /** A copy split between two samples is neither, nor the initial contents. */
  lemma MixIsNoGeneration(s1: Sample, s2: Sample, history: seq<Sample>, gen: nat, out: seq<Word>)
    requires s1.tai.lo != s2.tai.lo && s1.lockState != s2.lockState
    requires gen < |history| && history[0] == BLANK && (gen > 0 ==> history[gen] in {s1, s2})
    requires |out| == WORDS
    requires out[COUNT_AT] == 2 && out[LOCK_STATE_AT] == s1.lockState && out[TAI_AT] == s2.tai.lo
    ensures out != Image(gen, history[gen])
  {
  }

  // ----- without the bound on one attempt -----

  /** The attempt that takes the words before the TAI time at one moment, the rest at another. */
  function Split(first: nat, last: nat): (a: Attempt) {
    Attempt(first, seq(WORDS, w => if w < TAI_AT then first else last), last)
  }

  lemma SplitCopy(trace: seq<Snap>, history: seq<Sample>, first: nat, last: nat)
    returns (out: seq<Word>)
    requires Recorded(trace, history) && first <= last < |trace|
    ensures Timed(trace, Split(first, last)) && CopyOf(trace, history, Split(first, last), out)
    ensures |trace[first].words| == |trace[last].words| == |out| == WORDS
    ensures forall w :: 0 <= w < WORDS ==> out[w] == if w < TAI_AT then trace[first].words[w] else trace[last].words[w]
  {
    assert Faithful(trace[first], history) && Faithful(trace[last], history);
    out := trace[first].words[..TAI_AT] + trace[last].words[TAI_AT..];
  }

  /** Without that bound a run of the writer, 2^31 publishes long, lets a copy through that mixes
      two generations: the 32-bit counter has come round to the same value. */
  lemma WrapLetsAMixThrough(s1: Sample, s2: Sample)
    returns (history: seq<Sample>, a: Attempt, out: seq<Word>)
    requires s1.tai.lo != s2.tai.lo && s1.lockState != s2.lockState
    ensures |history| > 0 && history[0] == BLANK
    ensures var trace := WriterTrace(history);
            && Recorded(trace, history) && StoreByStore(trace)
            && Timed(trace, a) && CopyOf(trace, history, a, out)
            && |trace[a.before].words| == |trace[a.after].words| == WORDS
            && trace[a.before].words[COUNT_AT] % 2 == 0
            && trace[a.after].words[COUNT_AT] == trace[a.before].words[COUNT_AT]
            && |out| == WORDS && Created(out)
    ensures forall gen :: 0 <= gen < |history| ==> out != Image(gen, history[gen])
  {
    hide During, StoreByStore, Recorded, CopyOf, Timed;
    var wrap := 0x8000_0000;
    history := seq(wrap + 2, g => if g == 0 then BLANK else if g <= wrap then s1 else s2);
    var trace := WriterTrace(history);
    WriterTraceIsRecorded(history);
    var first, last := 2 + STORES, 2 + STORES * (wrap + 1);
    assert trace[first] == Snap(Image(1, s1), 2);
    assert trace[last] == Snap(Image(wrap + 1, s2), 2 * (wrap + 1));
    a := Split(first, last);
    out := SplitCopy(trace, history, first, last);
    assert trace[first].words[COUNT_AT] == trace[last].words[COUNT_AT] == 2;
    assert out[LOCK_STATE_AT] == s1.lockState && out[TAI_AT] == s2.tai.lo && out[COUNT_AT] == 2;
    forall gen | 0 <= gen < |history|
      ensures out != Image(gen, history[gen])
    {
      MixIsNoGeneration(s1, s2, history, gen, out);
    }
  }

  /** The timestamp of a copy, as a signed 64-bit number. */
  function SignedMonotonic(out: seq<Word>): (ns: int)
    requires |out| == WORDS
  {
    var raw := out[MONOTONIC_AT] as int + (out[MONOTONIC_AT + 1] as int) * 0x1_0000_0000;
    if raw < 0x8000_0000_0000_0000 then raw else raw - 0x1_0000_0000_0000_0000
  }

  /** The age test on top of a read. What decides is the timestamp that was published with the
      generation, its high word taken as signed. */
  method ReadFresh(trace: seq<Snap>, ghost history: seq<Sample>, attempts: seq<Attempt>, now: int, maxAge: int)
    returns (ok: bool, out: seq<Word>)
    requires Recorded(trace, history) && Schedule(trace, attempts)
    ensures ok ==>
              (exists gen: nat ::
                && Observed(trace, history, attempts[0].before, attempts[ATTEMPTS - 1].after, out, gen)
                && var m := history[gen].monotonic;
                   now - (m.lo + (if m.hi < 0x8000_0000 then m.hi else m.hi - 0x1_0000_0000) * 0x1_0000_0000) <= maxAge)
    ensures !ok && Created(trace[attempts[0].before].words) && SomeUndisturbed(trace, attempts, ATTEMPTS) ==>
              (exists gen: nat ::
                && Observed(trace, history, attempts[0].before, attempts[ATTEMPTS - 1].after, out, gen)
                && var m := history[gen].monotonic;
                   now - (m.lo + (if m.hi < 0x8000_0000 then m.hi else m.hi - 0x1_0000_0000) * 0x1_0000_0000) > maxAge)
  {
    ok, out := Read(trace, history, attempts);
    if ok {
      ghost var start, end := attempts[0].before, attempts[ATTEMPTS - 1].after;
      ghost var gen: nat :| Observed(trace, history, start, end, out, gen);
      assert out[MONOTONIC_AT] == history[gen].monotonic.lo && out[MONOTONIC_AT + 1] == history[gen].monotonic.hi;
      ok := now - SignedMonotonic(out) <= maxAge;
    }
  }
}
