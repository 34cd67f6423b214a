// Actions on raw outputs, and on senders and raw outputs together.
module RawOutputs {
  // A raw output has no map of its own: its entry points a channel of a sink at the output's
  // ALSA channel. A sender that repeats a sink's channel takes whatever the sink has by then.

  import opened Text
  import opened ChannelMap
  import opened ChannelActions

  function SinkCell(s: State, sink: Id, c: nat): (ch: Option<Alsa>) {
    if sink in s.sinks && c < |s.sinks[sink]| then Some(s.sinks[sink][c]) else None
  }

  // ----- acceptance -----

  /** An input that exists: a channel of a sink, or an ALSA channel where one may be named. */
  predicate GoodInput(s: State, e: Entry, raw: bool) {
    match e.input
    case None => true
    case Some(SinkInput(sink)) => sink in s.sinks && 0 <= e.index < |s.sinks[sink]|
    case Some(AlsaInput(ch)) => ch < s.alsa && !raw
    case _ => false
  }

  /** What the interface asks of a fragment: a sender and channels that it has, or a raw output
      and its only channel. */
  predicate GoodFragment(s: State, oa: OutputAction) {
    match oa.output
    case SourceOutput(id) =>
      id in s.sources && forall e :: e in oa.entries ==>
        e.channel.Some? && 0 <= e.channel.value < |s.sources[id]| && GoodInput(s, e, false)
    case AlsaOutput(ch) =>
      ch < s.alsa && forall e :: e in oa.entries ==> e.channel == Some(0) && GoodInput(s, e, true)
    case _ => false
  }

  lemma AcceptedExactly(s: State, action: Action)
    ensures Accepts(s, action) <==> forall oa :: oa in action ==> GoodFragment(s, oa)
  {
    hide Resolve, GoodInput;
    forall oa: OutputAction
      ensures AcceptsOutput(s, oa) <==> GoodFragment(s, oa)
    {
      var output := ResolveOutput(s, oa.output);
      if output.Some? {
        forall e: Entry
          ensures Resolve(s, output.value, e).Some? <==>
                  && e.channel.Some? && 0 <= e.channel.value < Channels(s, output.value)
                  && GoodInput(s, e, output.value.Playback?)
        {
          ResolvesExactly(s, output.value, e);
        }
      }
    }
  }

  lemma ResolvesExactly(s: State, output: Output, e: Entry)
    ensures Resolve(s, output, e).Some? <==>
            && e.channel.Some? && 0 <= e.channel.value < Channels(s, output)
            && GoodInput(s, e, output.Playback?)
  {
  }

  // ----- one item, one fragment after the other -----

  lemma RawItemCell(s: State, it: Item, sink: Id, c: nat)
    requires Fits(s, it)
    ensures SinkCell(ApplyItem(s, it), sink, c) ==
            if it.output.Playback? && it.input == Some(Repeat(sink)) && it.index == c then Some(it.output.channel)
            else SinkCell(s, sink, c)
    ensures it.output.Playback? ==> ApplyItem(s, it).sources == s.sources
  {
  }

  lemma StillFits(s: State, t: State, it: Item)
    requires SameShape(s, t) && Fits(s, it)
    ensures Fits(t, it)
  {
  }

  lemma {:induction false} ApplyAppend(s: State, xs: seq<Item>, ys: seq<Item>)
    requires forall it :: it in xs + ys ==> Fits(s, it)
    ensures forall it :: it in xs ==> Fits(s, it)
    ensures forall it :: it in ys ==> Fits(Apply(s, xs), it)
    ensures Apply(s, xs + ys) == Apply(Apply(s, xs), ys)
  {
    hide Fits, ApplyItem;
    forall it | it in xs
      ensures Fits(s, it)
    {
      assert it in xs + ys;
    }
    forall it | it in ys
      ensures Fits(Apply(s, xs), it)
    {
      assert it in xs + ys;
      StillFits(s, Apply(s, xs), it);
    }
    if ys == [] {
      assert xs + ys == xs;
    } else {
      var n := |ys| - 1;
      assert (xs + ys)[..|xs + ys| - 1] == xs + ys[..n];
      assert forall it :: it in xs + ys[..n] ==> it in xs + ys;
      ApplyAppend(s, xs, ys[..n]);
    }
  }

  /** The items of an action are those of its parts. */
  lemma {:induction false} ItemsAppend(s: State, xs: Action, ys: Action)
    requires Accepts(s, xs + ys)
    ensures Accepts(s, xs) && Accepts(s, ys) && Items(s, xs + ys) == Items(s, xs) + Items(s, ys)
  {
    hide ItemsOf, Resolve;
    assert forall oa :: oa in xs ==> oa in xs + ys;
    assert forall oa :: oa in ys ==> oa in xs + ys;
    if ys == [] {
      assert xs + ys == xs;
    } else {
      var n := |ys| - 1;
      var oa := ys[n];
      assert (xs + ys)[..|xs + ys| - 1] == xs + ys[..n] && (xs + ys)[|xs + ys| - 1] == oa;
      assert forall ob :: ob in xs + ys[..n] ==> ob in xs + ys;
      assert oa in ys && AcceptsOutput(s, oa);
      ItemsAppend(s, xs, ys[..n]);
      var last := ItemsOf(s, ResolveOutput(s, oa.output).value, oa.entries);
      assert Items(s, xs) + (Items(s, ys[..n]) + last) == (Items(s, xs) + Items(s, ys[..n])) + last;
    }
  }

  /** What is accepted, and as which items, depends on the shape of the maps only. */
  lemma SameShapeSameFragment(s: State, t: State, oa: OutputAction)
    requires SameShape(s, t)
    ensures AcceptsOutput(t, oa) <==> AcceptsOutput(s, oa)
    ensures AcceptsOutput(s, oa) ==>
              && ResolveOutput(t, oa.output) == ResolveOutput(s, oa.output)
              && ItemsOf(t, ResolveOutput(t, oa.output).value, oa.entries)
                 == ItemsOf(s, ResolveOutput(s, oa.output).value, oa.entries)
  {
    var output := ResolveOutput(s, oa.output);
    if output.Some? {
      assert forall e: Entry :: Resolve(t, output.value, e) == Resolve(s, output.value, e);
    }
  }

  lemma {:induction false} SameShapeSameItems(s: State, t: State, action: Action)
    requires SameShape(s, t)
    ensures Accepts(t, action) <==> Accepts(s, action)
    ensures Accepts(s, action) ==> Items(t, action) == Items(s, action)
  {
    hide AcceptsOutput, SameShape, ItemsOf;
    forall oa: OutputAction
      ensures AcceptsOutput(t, oa) <==> AcceptsOutput(s, oa)
    {
      SameShapeSameFragment(s, t, oa);
    }
    if Accepts(s, action) && action != [] {
      var n := |action| - 1;
      assert forall oa :: oa in action[..n] ==> oa in action;
      SameShapeSameItems(s, t, action[..n]);
      SameShapeSameFragment(s, t, action[n]);
    }
  }

  /** An accepted action does one part after the other. */
  lemma ActsInOrder(s: State, xs: Action, ys: Action)
    requires Accepts(s, xs + ys)
    ensures Accepts(s, xs) && SameShape(s, Act(s, xs)) && Accepts(Act(s, xs), ys)
    ensures Act(s, xs + ys) == Act(Act(s, xs), ys)
  {
    hide AcceptsOutput, Fits, SameShape;
    ItemsAppend(s, xs, ys);
    ItemsFit(s, xs + ys);
    ApplyAppend(s, Items(s, xs), Items(s, ys));
    ItemsFit(s, xs);
    assert SameShape(s, Act(s, xs)) by { ActKeepsShape(s, xs); }
    SameShapeSameItems(s, Act(s, xs), ys);
  }

  lemma ActKeepsShape(s: State, action: Action)
    ensures SameShape(s, Act(s, action))
  {
  }

  // ----- sinks -----

  predicate NamesChannel(e: Entry, sink: Id, c: nat) { e.input == Some(SinkInput(sink)) && e.index == c }

  predicate NamesSink(oa: OutputAction, sink: Id, c: nat) {
    oa.output.AlsaOutput? && exists e :: e in oa.entries && NamesChannel(e, sink, c)
  }

  /** The raw output of the last fragment that names a sink's channel, if any does. */
  function LastRaw(action: Action, sink: Id, c: nat): (ch: Option<Alsa>) {
    if action == [] then None
    else
      var n := |action| - 1;
      if NamesSink(action[n], sink, c) then Some(action[n].output.channel) else LastRaw(action[..n], sink, c)
  }

  lemma {:induction false} FragmentSinkCell(s: State, output: Output, es: seq<Entry>, sink: Id, c: nat)
    requires forall e :: e in es ==> Resolve(s, output, e).Some?
    requires output.Sender? ==> output.id in s.sources
    ensures var items := ItemsOf(s, output, es);
            && (forall it :: it in items ==> Fits(s, it))
            && SinkCell(Apply(s, items), sink, c) ==
               if output.Playback? && exists e :: e in es && NamesChannel(e, sink, c) then Some(output.channel)
               else SinkCell(s, sink, c)
    ensures output.Playback? ==> Apply(s, ItemsOf(s, output, es)).sources == s.sources
  {
    hide Resolve;
    FragmentItemsFit(s, output, es);
    if es != [] {
      var n := |es| - 1;
      var before, e := es[..n], es[n];
      assert es == before + [e];
      FragmentSinkCell(s, output, before, sink, c);
      var items := ItemsOf(s, output, es);
      assert items[..n] == ItemsOf(s, output, before);
      StillFits(s, Apply(s, items[..n]), items[n]);
      RawItemCell(Apply(s, items[..n]), items[n], sink, c);
      ItemNames(s, output, e, sink, c);
      assert NamesChannel(e, sink, c) ==> e in es;
      assert (exists d :: d in es && NamesChannel(d, sink, c)) <==>
             NamesChannel(e, sink, c) || exists d :: d in before && NamesChannel(d, sink, c);
    }
  }

  lemma FragmentItemsFit(s: State, output: Output, es: seq<Entry>)
    requires forall e :: e in es ==> Resolve(s, output, e).Some?
    requires output.Sender? ==> output.id in s.sources
    ensures forall it :: it in ItemsOf(s, output, es) ==> Fits(s, it)
  {
    var items := ItemsOf(s, output, es);
    forall it | it in items
      ensures Fits(s, it)
    {
      var k :| 0 <= k < |items| && items[k] == it;
      assert es[k] in es;
      ResolvedFits(s, output, es[k]);
    }
  }

  lemma ItemNames(s: State, output: Output, e: Entry, sink: Id, c: nat)
    requires Resolve(s, output, e).Some?
    ensures var it := Resolve(s, output, e).value;
            it.output == output && (it.input == Some(Repeat(sink)) && it.index == c <==> NamesChannel(e, sink, c))
  {
  }

  /** What any accepted action does to the sinks: every channel moves to the raw output of the
      last fragment that names it, and stays where it is if none does. */
  lemma {:induction false} LastRawWins(s: State, action: Action, sink: Id, c: nat)
    requires Accepts(s, action)
    ensures SinkCell(Act(s, action), sink, c) ==
            match LastRaw(action, sink, c)
            case Some(ch) => Some(ch)
            case None => SinkCell(s, sink, c)
  {
    hide Resolve, SinkCell, NamesSink, AcceptsOutput;
    if action != [] {
      var n := |action| - 1;
      var before, oa := action[..n], action[n];
      assert action == before + [oa];
      ActsInOrder(s, before, [oa]);
      LastRawWins(s, before, sink, c);
      assert oa in [oa];
      OneFragmentSink(Act(s, before), oa, sink, c);
    }
  }

  lemma OneFragmentSink(s: State, oa: OutputAction, sink: Id, c: nat)
    requires Accepts(s, [oa])
    ensures SinkCell(Act(s, [oa]), sink, c) ==
            if NamesSink(oa, sink, c) then Some(oa.output.channel) else SinkCell(s, sink, c)
    ensures NamesSink(oa, sink, c) ==> SinkCell(s, sink, c).Some?
    ensures oa.output.AlsaOutput? ==> Act(s, [oa]).sources == s.sources
  {
    hide Resolve;
    assert oa in [oa] && AcceptsOutput(s, oa);
    var output := ResolveOutput(s, oa.output).value;
    assert [oa][..0] == [];
    assert Items(s, [oa]) == ItemsOf(s, output, oa.entries);
    FragmentSinkCell(s, output, oa.entries, sink, c);
    if NamesSink(oa, sink, c) {
      var e :| e in oa.entries && NamesChannel(e, sink, c);
      ResolvesExactly(s, output, e);
    }
  }

  /** Raw outputs alone leave the sources as they are. */
  lemma {:induction false} RawLeavesSources(s: State, action: Action)
    requires Accepts(s, action) && forall oa :: oa in action ==> oa.output.AlsaOutput?
    ensures Act(s, action).sources == s.sources
  {
    hide AcceptsOutput;
    if action != [] {
      var n := |action| - 1;
      assert action == action[..n] + [action[n]];
      ActsInOrder(s, action[..n], [action[n]]);
      RawLeavesSources(s, action[..n]);
      OneFragmentSink(Act(s, action[..n]), action[n], 0, 0);
    }
  }

  // ----- senders among raw outputs -----

  lemma {:induction false} SenderStays(s: State, action: Action, id: Id, c: nat)
    requires Accepts(s, action) && LastOf(action, id, c).None?
    ensures Cell(Act(s, action), id, c) == Cell(s, id, c)
  {
    hide AcceptsOutput, Cell, LastEntry;
    if action != [] {
      var n := |action| - 1;
      var oa := action[n];
      assert action == action[..n] + [oa];
      ActsInOrder(s, action[..n], [oa]);
      SenderStays(s, action[..n], id, c);
      OneFragmentSender(Act(s, action[..n]), oa, id, c);
    }
  }

  lemma OneFragmentSender(s: State, oa: OutputAction, id: Id, c: nat)
    requires Accepts(s, [oa])
    ensures match if oa.output == SourceOutput(id) then LastEntry(oa.entries, c) else None
            case None => Cell(Act(s, [oa]), id, c) == Cell(s, id, c)
            case Some(e) =>
              && id in s.sources && Resolve(s, Sender(id), e).Some?
              && Cell(Act(s, [oa]), id, c) == Some(AskedFor(s, id, e))
  {
    hide Resolve, Cell;
    assert oa in [oa] && AcceptsOutput(s, oa);
    var output := ResolveOutput(s, oa.output).value;
    assert [oa][..0] == [];
    assert Items(s, [oa]) == ItemsOf(s, output, oa.entries);
    if output.Sender? {
      FragmentCell(s, output.id, oa.entries, id, c);
    } else {
      OneFragmentSink(s, oa, 0, 0);
      SameSourcesSameCell(s, Act(s, [oa]), id, c);
    }
  }

  lemma SameSourcesSameCell(s: State, t: State, id: Id, c: nat)
    requires s.sources == t.sources
    ensures Cell(t, id, c) == Cell(s, id, c)
  {
  }

  /** What any accepted action does to a sender's channel: the last entry for it decides, with
      the sink maps as the fragments in front of it have left them. */
  lemma LastSenderWins(s: State, before: Action, oa: OutputAction, after: Action, id: Id, c: nat)
    requires Accepts(s, before + [oa] + after)
    requires oa.output == SourceOutput(id) && LastEntry(oa.entries, c).Some? && LastOf(after, id, c).None?
    ensures var t, e := Act(s, before), LastEntry(oa.entries, c).value;
            && Accepts(s, before) && id in t.sources && Resolve(t, Sender(id), e).Some?
            && Cell(Act(s, before + [oa] + after), id, c) == Some(AskedFor(t, id, e))
  {
    hide AcceptsOutput, Cell, Resolve, LastEntry;
    ActsInOrder(s, before + [oa], after);
    ActsInOrder(s, before, [oa]);
    OneFragmentSender(Act(s, before), oa, id, c);
    SenderStays(Act(s, before + [oa]), after, id, c);
  }
}
