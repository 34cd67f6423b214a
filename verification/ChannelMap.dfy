// The channel mapping interface: actions and the active map.
module ChannelMap {
  // An action names outputs, channels and inputs; it is checked as a whole and then applied,
  // item by item, to the channel maps of sources and sinks. The reported active map is derived
  // from those same channel maps.

  import opened Text

  type Id = uint8
  type Alsa = uint8

  /** Resource ids; different resources have different ids. */
  datatype Uuid = SinkInput(id: Id) | AlsaInput(channel: Alsa) | SourceOutput(id: Id) | AlsaOutput(channel: Alsa)
                | Foreign(text: string)

  /** The channel maps, each channel naming an ALSA channel, and the number of those. */
  datatype State = State(sources: map<Id, seq<Alsa>>, sinks: map<Id, seq<Alsa>>, alsa: uint8)

  /** One channel of an output: the number its key reads as, if it does, and what is asked. */
  datatype Entry = Entry(channel: Option<int>, input: Option<Uuid>, index: int)

  datatype OutputAction = OutputAction(output: Uuid, entries: seq<Entry>)

  type Action = seq<OutputAction>

  datatype Output = Sender(id: Id) | Playback(channel: Alsa)

  datatype Input = Repeat(id: Id) | Capture(channel: Alsa)

  datatype Item = Item(output: Output, channel: nat, input: Option<Input>, index: int)

  // ----- checking -----

  function ResolveOutput(s: State, u: Uuid): (r: Option<Output>) {
    match u
    case SourceOutput(id) => if id in s.sources then Some(Sender(id)) else None
    case AlsaOutput(ch) => if ch < s.alsa then Some(Playback(ch)) else None
    case _ => None
  }

  function ResolveInput(s: State, u: Uuid): (r: Option<Input>) {
    match u
    case SinkInput(id) => if id in s.sinks then Some(Repeat(id)) else None
    case AlsaInput(ch) => if ch < s.alsa then Some(Capture(ch)) else None
    case _ => None
  }

  function Channels(s: State, output: Output): (n: nat) {
    if output.Sender? && output.id in s.sources then |s.sources[output.id]| else 1
  }

  /** One entry, resolved and checked. */
  function Resolve(s: State, output: Output, e: Entry): (r: Option<Item>) {
    if e.channel.None? || e.channel.value < 0 || e.channel.value >= Channels(s, output) then None
    else if e.input.None? then Some(Item(output, e.channel.value, None, 0))
    else
      var input := ResolveInput(s, e.input.value);
      if input.None? || (output.Playback? && input.value.Capture?) then None
      else if input.value.Repeat? && !(0 <= e.index < |s.sinks[input.value.id]|) then None
      else Some(Item(output, e.channel.value, input, e.index))
  }

  predicate AcceptsOutput(s: State, oa: OutputAction) {
    && ResolveOutput(s, oa.output).Some?
    && forall e :: e in oa.entries ==> Resolve(s, ResolveOutput(s, oa.output).value, e).Some?
  }

  predicate Accepts(s: State, action: Action) {
    forall oa :: oa in action ==> AcceptsOutput(s, oa)
  }

  function ItemsOf(s: State, output: Output, entries: seq<Entry>): (items: seq<Item>)
    requires forall e :: e in entries ==> Resolve(s, output, e).Some?
    ensures |items| == |entries|
    ensures forall i :: 0 <= i < |items| ==> items[i] == Resolve(s, output, entries[i]).value
  {
    if entries == [] then []
    else ItemsOf(s, output, entries[..|entries| - 1]) + [Resolve(s, output, entries[|entries| - 1]).value]
  }

  function Items(s: State, action: Action): (items: seq<Item>)
    requires Accepts(s, action)
  {
    if action == [] then []
    else
      var oa := action[|action| - 1];
      assert AcceptsOutput(s, oa);
      Items(s, action[..|action| - 1]) + ItemsOf(s, ResolveOutput(s, oa.output).value, oa.entries)
  }

  // ----- applying -----

  predicate Fits(s: State, it: Item) {
    && (it.output.Sender? ==> it.output.id in s.sources && it.channel < |s.sources[it.output.id]|)
    && (it.input.Some? && it.input.value.Repeat? ==>
          && it.input.value.id in s.sinks
          && 0 <= it.index < |s.sinks[it.input.value.id]|)
    && (it.output.Playback? && it.input.Some? ==> it.input.value.Repeat?)
  }

  function With(m: seq<Alsa>, i: nat, ch: Alsa): (r: seq<Alsa>)
    requires i < |m|
  {
    m[i := ch]
  }

  function ApplyItem(s: State, it: Item): (r: State)
    requires Fits(s, it)
  {
    if it.input.None? then s
    else
      match it.output
      case Sender(id) => s.(sources := s.sources[id := With(s.sources[id], it.channel, Requested(s, it))])
      case Playback(ch) =>
        var sink := it.input.value.id;
        s.(sinks := s.sinks[sink := With(s.sinks[sink], it.index, ch)])
  }

  /** The ALSA channel an item asks a sender's channel to take. */
  function Requested(s: State, it: Item): (ch: Alsa)
    requires Fits(s, it) && it.input.Some?
  {
    match it.input.value
    case Repeat(id) => s.sinks[id][it.index]
    case Capture(ch) => ch
  }

  /** Same sources and sinks, each with as many channels. */
  predicate SameShape(s: State, r: State) {
    && r.alsa == s.alsa && r.sources.Keys == s.sources.Keys && r.sinks.Keys == s.sinks.Keys
    && (forall id :: id in s.sources ==> |r.sources[id]| == |s.sources[id]|)
    && (forall id :: id in s.sinks ==> |r.sinks[id]| == |s.sinks[id]|)
  }

  function Apply(s: State, items: seq<Item>): (r: State)
    requires forall it :: it in items ==> Fits(s, it)
    ensures SameShape(s, r)
  {
    if items == [] then s
    else
      var it := items[|items| - 1];
      assert Fits(s, it);
      ApplyItem(Apply(s, items[..|items| - 1]), it)
  }

  lemma ResolvedFits(s: State, output: Output, e: Entry)
    requires Resolve(s, output, e).Some? && (output.Sender? ==> output.id in s.sources)
    ensures Fits(s, Resolve(s, output, e).value)
  {
  }

  lemma {:induction false} ItemsFit(s: State, action: Action)
    requires Accepts(s, action)
    ensures forall it :: it in Items(s, action) ==> Fits(s, it)
  {
    if action != [] {
      ItemsFit(s, action[..|action| - 1]);
      var oa := action[|action| - 1];
      assert AcceptsOutput(s, oa);
      var last := ItemsOf(s, ResolveOutput(s, oa.output).value, oa.entries);
      forall i | 0 <= i < |last|
        ensures Fits(s, last[i])
      {
        ResolvedFits(s, ResolveOutput(s, oa.output).value, oa.entries[i]);
      }
    }
  }

  /** Nothing happens unless every entry of the action is acceptable. */
  function Act(s: State, action: Action): (r: State) {
    if !Accepts(s, action) then s
    else
      ItemsFit(s, action);
      Apply(s, Items(s, action))
  }

  // ----- the reported active map -----

  /** The first channel of a sink that uses an ALSA channel. */
  function ChannelOf(m: seq<Alsa>, ch: Alsa, from: nat): (r: Option<nat>)
    requires from <= |m|
    ensures r.Some? ==> from <= r.value < |m| && m[r.value] == ch && ch !in m[from..r.value]
    ensures r.None? ==> ch !in m[from..]
    decreases |m| - from
  {
    if from == |m| then None else if m[from] == ch then Some(from) else ChannelOf(m, ch, from + 1)
  }

  /** The first sink that uses an ALSA channel, and where. */
  function FindSink(s: State, ch: Alsa, from: nat): (r: Option<(Id, nat)>)
    requires from <= 0x100
    ensures r.Some? ==> r.value.0 in s.sinks && r.value.1 < |s.sinks[r.value.0]|
                        && s.sinks[r.value.0][r.value.1] == ch
    ensures r.Some? ==> ch !in s.sinks[r.value.0][..r.value.1]
                        && forall id :: id in s.sinks && from <= id < r.value.0 ==> ch !in s.sinks[id]
    ensures r.None? ==> forall id :: id in s.sinks && id >= from ==> ch !in s.sinks[id]
    decreases 0x100 - from
  {
    if from == 0x100 then None
    else if from in s.sinks && ChannelOf(s.sinks[from], ch, 0).Some? then
      Some((from, ChannelOf(s.sinks[from], ch, 0).value))
    else FindSink(s, ch, from + 1)
  }

  function SenderEntry(s: State, c: nat, ch: Alsa): (e: Entry) {
    match FindSink(s, ch, 0)
    case Some((id, k)) => Entry(Some(c), Some(SinkInput(id)), k)
    case None => Entry(Some(c), Some(AlsaInput(ch)), 0)
  }

  function SenderEntries(s: State, m: seq<Alsa>): (es: seq<Entry>)
    ensures |es| == |m|
    ensures forall c :: 0 <= c < |m| ==> es[c] == SenderEntry(s, c, m[c])
  {
    if m == [] then []
    else SenderEntries(s, m[..|m| - 1]) + [SenderEntry(s, |m| - 1, m[|m| - 1])]
  }

  function PlaybackEntry(s: State, ch: Alsa): (e: Entry) {
    match FindSink(s, ch, 0)
    case Some((id, k)) => Entry(Some(0), Some(SinkInput(id)), k)
    case None => Entry(Some(0), None, 0)
  }

  function ActiveSenders(s: State, from: nat): (a: Action)
    requires from <= 0x100
    ensures forall oa :: oa in a ==>
              && oa.output.SourceOutput? && oa.output.id in s.sources
              && oa.entries == SenderEntries(s, s.sources[oa.output.id])
    ensures forall id :: id in s.sources && id >= from ==>
              OutputAction(SourceOutput(id), SenderEntries(s, s.sources[id])) in a
    decreases 0x100 - from
  {
    if from == 0x100 then []
    else if from in s.sources then
      [OutputAction(SourceOutput(from), SenderEntries(s, s.sources[from]))] + ActiveSenders(s, from + 1)
    else ActiveSenders(s, from + 1)
  }

  function ActivePlaybacks(s: State, from: nat): (a: Action)
    requires from <= s.alsa
    ensures forall oa :: oa in a ==>
              oa.output.AlsaOutput? && oa.output.channel < s.alsa && oa.entries == [PlaybackEntry(s, oa.output.channel)]
    ensures forall ch :: from <= ch < s.alsa ==> OutputAction(AlsaOutput(ch), [PlaybackEntry(s, ch)]) in a
    decreases s.alsa - from
  {
    if from == s.alsa then []
    else [OutputAction(AlsaOutput(from), [PlaybackEntry(s, from)])] + ActivePlaybacks(s, from + 1)
  }

  /** What the interface reports, in the form of a request. */
  function ActiveMap(s: State): (a: Action) { ActiveSenders(s, 0) + ActivePlaybacks(s, 0) }

  /** The first place where a sink uses an ALSA channel, in the order of ids and channels. */
  predicate FirstUse(s: State, ch: Alsa, sink: Id, k: nat) {
    && sink in s.sinks && k < |s.sinks[sink]| && s.sinks[sink][k] == ch
    && ch !in s.sinks[sink][..k] && forall id :: id in s.sinks && id < sink ==> ch !in s.sinks[id]
  }

  /** The report for a sender's channel: the sink that uses the same ALSA channel first, or the
      ALSA channel itself where no sink does. */
  lemma SenderIsReported(s: State, id: Id, c: nat)
    requires id in s.sources && c < |s.sources[id]|
    ensures OutputAction(SourceOutput(id), SenderEntries(s, s.sources[id])) in ActiveMap(s)
    ensures var ch, e := s.sources[id][c], SenderEntries(s, s.sources[id])[c];
            && e.channel == Some(c)
            && (if Patched(s, ch) then e.index >= 0 && exists sink :: FirstUse(s, ch, sink, e.index) && e.input == Some(SinkInput(sink))
                else e.input == Some(AlsaInput(ch)) && e.index == 0)
  {
    var ch := s.sources[id][c];
    if Patched(s, ch) {
      var r := FindSink(s, ch, 0).value;
      assert FirstUse(s, ch, r.0, r.1);
    }
  }

  /** The report for a raw output: the sink that uses it first, or nothing. */
  lemma PlaybackIsReported(s: State, ch: Alsa)
    requires ch < s.alsa
    ensures OutputAction(AlsaOutput(ch), [PlaybackEntry(s, ch)]) in ActiveMap(s)
    ensures var e := PlaybackEntry(s, ch);
            && e.channel == Some(0) && e.index >= 0
            && (if Patched(s, ch) then exists sink :: FirstUse(s, ch, sink, e.index) && e.input == Some(SinkInput(sink))
                else e.input == None)
  {
    if Patched(s, ch) {
      var r := FindSink(s, ch, 0).value;
      assert FirstUse(s, ch, r.0, r.1);
    }
  }

  predicate Patched(s: State, ch: Alsa) { exists id :: id in s.sinks && ch in s.sinks[id] }

  /** Every channel a source uses can be named as an input. */
  predicate Nameable(s: State) {
    forall id, c :: id in s.sources && 0 <= c < |s.sources[id]| ==> NameableAt(s, s.sources[id][c])
  }

  predicate NameableAt(s: State, ch: Alsa) { ch < s.alsa || Patched(s, ch) }

  predicate Neutral(s: State, it: Item) { Fits(s, it) && ApplyItem(s, it) == s }

  lemma SenderEntryNeutral(s: State, id: Id, c: nat)
    requires id in s.sources && c < |s.sources[id]|
    ensures var r := Resolve(s, Sender(id), SenderEntry(s, c, s.sources[id][c]));
            && (r.Some? <==> NameableAt(s, s.sources[id][c]))
            && (r.Some? ==> Neutral(s, r.value))
  {
    var ch := s.sources[id][c];
    var r := Resolve(s, Sender(id), SenderEntry(s, c, ch));
    assert With(s.sources[id], c, ch) == s.sources[id];
    assert s.sources[id := s.sources[id]] == s.sources;
    assert FindSink(s, ch, 0).Some? <==> Patched(s, ch);
    assert r.Some? ==> Requested(s, r.value) == ch;
  }

  lemma PlaybackEntryNeutral(s: State, ch: Alsa)
    requires ch < s.alsa
    ensures var r := Resolve(s, Playback(ch), PlaybackEntry(s, ch)); r.Some? && Neutral(s, r.value)
  {
    match FindSink(s, ch, 0) {
      case Some((id, k)) =>
        assert With(s.sinks[id], k, ch) == s.sinks[id];
        assert s.sinks[id := s.sinks[id]] == s.sinks;
      case None =>
    }
  }

  lemma {:induction false} NeutralItemsChangeNothing(s: State, items: seq<Item>)
    requires forall it :: it in items ==> Fits(s, it) && Neutral(s, it)
    ensures Apply(s, items) == s
  {
    if items != [] {
      assert Neutral(s, items[|items| - 1]);
      NeutralItemsChangeNothing(s, items[..|items| - 1]);
    }
  }

  predicate NeutralEntries(s: State, oa: OutputAction)
    requires AcceptsOutput(s, oa)
  {
    forall e :: e in oa.entries ==> Neutral(s, Resolve(s, ResolveOutput(s, oa.output).value, e).value)
  }

  lemma {:induction false} NeutralActionsChangeNothing(s: State, action: Action)
    requires Accepts(s, action) && forall oa :: oa in action ==> NeutralEntries(s, oa)
    ensures forall it :: it in Items(s, action) ==> Neutral(s, it)
  {
    if action != [] {
      NeutralActionsChangeNothing(s, action[..|action| - 1]);
      assert NeutralEntries(s, action[|action| - 1]);
    }
  }

  lemma ActiveSenderOutput(s: State, id: Id)
    requires id in s.sources
    ensures var oa := OutputAction(SourceOutput(id), SenderEntries(s, s.sources[id]));
            && (AcceptsOutput(s, oa) <==> forall c :: 0 <= c < |s.sources[id]| ==> NameableAt(s, s.sources[id][c]))
            && (AcceptsOutput(s, oa) ==> NeutralEntries(s, oa))
  {
    hide Resolve, Neutral, NameableAt, SenderEntry;
    var es := SenderEntries(s, s.sources[id]);
    forall c | 0 <= c < |s.sources[id]|
      ensures var r := Resolve(s, Sender(id), es[c]);
              && (r.Some? <==> NameableAt(s, s.sources[id][c]))
              && (r.Some? ==> Neutral(s, r.value))
    {
      SenderEntryNeutral(s, id, c);
    }
  }

  lemma ActiveOutputs(s: State, oa: OutputAction)
    requires oa in ActiveMap(s)
    ensures oa.output.SourceOutput? ==>
              && oa.output.id in s.sources
              && (AcceptsOutput(s, oa) <==>
                  forall c :: 0 <= c < |s.sources[oa.output.id]| ==> NameableAt(s, s.sources[oa.output.id][c]))
    ensures !oa.output.SourceOutput? ==> AcceptsOutput(s, oa)
    ensures AcceptsOutput(s, oa) ==> NeutralEntries(s, oa)
  {
    hide Resolve, Neutral, NameableAt;
    if oa.output.SourceOutput? {
      ActiveSenderOutput(s, oa.output.id);
    } else {
      PlaybackEntryNeutral(s, oa.output.channel);
    }
  }

  /** Asking for the reported map changes nothing, even when several sinks share an ALSA
      channel; it is accepted exactly when every channel in use can be named. */
  lemma ReapplyingChangesNothing(s: State)
    ensures Act(s, ActiveMap(s)) == s
    ensures Accepts(s, ActiveMap(s)) <==> Nameable(s)
  {
    var a := ActiveMap(s);
    forall oa | oa in a
      ensures AcceptsOutput(s, oa) ==> NeutralEntries(s, oa)
      ensures Nameable(s) ==> AcceptsOutput(s, oa)
    {
      ActiveOutputs(s, oa);
    }
    if Accepts(s, a) {
      NeutralActionsChangeNothing(s, a);
      NeutralItemsChangeNothing(s, Items(s, a));
      forall id, c | id in s.sources && 0 <= c < |s.sources[id]|
        ensures NameableAt(s, s.sources[id][c])
      {
        var oa := OutputAction(SourceOutput(id), SenderEntries(s, s.sources[id]));
        assert oa in a;
        ActiveOutputs(s, oa);
      }
    }
  }

  // ----- order does not matter for senders -----

  predicate SenderItems(s: State, items: seq<Item>) {
    forall it :: it in items ==> Fits(s, it) && it.output.Sender?
  }

  predicate DistinctTargets(items: seq<Item>) {
    forall i, j :: 0 <= i < j < |items| ==>
      items[i].output != items[j].output || items[i].channel != items[j].channel
  }

  predicate Targets(it: Item, id: Id, c: nat) { it.output == Sender(id) && it.channel == c && it.input.Some? }

  predicate Targeted(items: seq<Item>, id: Id, c: nat) { exists it :: it in items && Targets(it, id, c) }

  function Cell(s: State, id: Id, c: nat): (ch: Option<Alsa>) {
    if id in s.sources && c < |s.sources[id]| then Some(s.sources[id][c]) else None
  }

  lemma ApplyItemCell(s: State, it: Item, id: Id, c: nat)
    requires Fits(s, it) && it.output.Sender?
    ensures ApplyItem(s, it).sinks == s.sinks
    ensures Cell(ApplyItem(s, it), id, c) == if Targets(it, id, c) then Some(Requested(s, it)) else Cell(s, id, c)
  {
  }

  /** Every requested cell ends up as requested, whatever the others ask for; the rest stays. */
  lemma {:induction false} Effect(s: State, items: seq<Item>, id: Id, c: nat)
    requires SenderItems(s, items) && DistinctTargets(items)
    ensures Apply(s, items).sinks == s.sinks
    ensures !Targeted(items, id, c) ==> Cell(Apply(s, items), id, c) == Cell(s, id, c)
    ensures forall it :: it in items && Targets(it, id, c) ==> Cell(Apply(s, items), id, c) == Some(Requested(s, it))
  {
    if items != [] {
      var n := |items| - 1;
      var before := items[..n];
      Effect(s, before, id, c);
      ApplyItemCell(Apply(s, before), items[n], id, c);
      assert Targeted(before, id, c) ==> Targeted(items, id, c) by {
        assert forall it :: it in before ==> it in items;
      }
      assert Targets(items[n], id, c) ==> !Targeted(before, id, c);
      assert items[n] in items;
    }
  }

  lemma SameCells(r: State, t: State)
    requires r.sinks == t.sinks && r.alsa == t.alsa && r.sources.Keys == t.sources.Keys
    requires forall id: Id, c: nat :: Cell(r, id, c) == Cell(t, id, c)
    ensures r == t
  {
    forall id | id in r.sources
      ensures r.sources[id] == t.sources[id]
    {
      assert Cell(r, id, |t.sources[id]|) == Cell(t, id, |t.sources[id]|);
      assert Cell(r, id, |r.sources[id]|) == Cell(t, id, |r.sources[id]|);
      forall c: nat | c < |r.sources[id]|
        ensures r.sources[id][c] == t.sources[id][c]
      {
        assert Cell(r, id, c) == Cell(t, id, c);
      }
    }
  }

  /** The order of a set of sender items does not show in their effect. */
  lemma SameItemsSameEffect(s: State, xs: seq<Item>, ys: seq<Item>)
    requires SenderItems(s, xs) && DistinctTargets(xs) && DistinctTargets(ys)
    requires forall it :: it in xs <==> it in ys
    ensures SenderItems(s, ys)
    ensures Apply(s, xs) == Apply(s, ys)
  {
    var r, t := Apply(s, xs), Apply(s, ys);
    forall id: Id, c: nat
      ensures Cell(r, id, c) == Cell(t, id, c) && r.sinks == t.sinks
    {
      Effect(s, xs, id, c);
      Effect(s, ys, id, c);
    }
    Effect(s, xs, 0, 0);
    Effect(s, ys, 0, 0);
    SameCells(r, t);
  }
}
