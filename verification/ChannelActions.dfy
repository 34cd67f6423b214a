// Immediate and stored channel-mapping actions.
module ChannelActions {
  // The stored form is rebuilt from the request, one fragment per output in the order of the
  // output ids, and applied when its time comes.

  import opened Text
  import opened ChannelMap

  /** The stored form of an entry: clearing an input drops its channel index. */
  function Normal(e: Entry): (r: Entry) {
    if e.input.None? then e.(index := 0) else e
  }

  /** Two entries are stored alike exactly when they are the same, or clear the same channel. */
  lemma StoredAlike(a: Entry, b: Entry)
    ensures Normal(a) == Normal(b) <==>
            a.channel == b.channel && a.input == b.input && (a.input.Some? ==> a.index == b.index)
  {
  }

  function Normals(es: seq<Entry>): (r: seq<Entry>)
    ensures |r| == |es| && forall i :: 0 <= i < |es| ==> r[i] == Normal(es[i])
  {
    if es == [] then [] else Normals(es[..|es| - 1]) + [Normal(es[|es| - 1])]
  }

  predicate Names(action: Action, u: Uuid) { exists oa :: oa in action && oa.output == u }

  /** The fragments of an action, by output; a repeated output keeps its last fragment. */
  function Canonical(action: Action): (m: map<Uuid, seq<Entry>>)
    ensures forall u :: u in m <==> Names(action, u)
  {
    if action == [] then map[]
    else
      var n := |action| - 1;
      assert action == action[..n] + [action[n]];
      Canonical(action[..n])[action[n].output := Normals(action[n].entries)]
  }

  /** The stored action, its outputs in the order of `keys`. */
  function Listing(m: map<Uuid, seq<Entry>>, keys: seq<Uuid>): (action: Action)
    requires forall u :: u in keys ==> u in m
    ensures |action| == |keys|
    ensures forall i :: 0 <= i < |keys| ==> action[i] == OutputAction(keys[i], m[keys[i]])
  {
    if keys == [] then []
    else
      var n := |keys| - 1;
      assert keys[n] in keys && forall u :: u in keys[..n] ==> u in keys;
      Listing(m, keys[..n]) + [OutputAction(keys[n], m[keys[n]])]
  }

  /** Some order of the keys of a map, each once. */
  ghost predicate Enumerates(keys: seq<Uuid>, m: map<Uuid, seq<Entry>>) {
    && (forall u :: u in keys <==> u in m)
    && forall i, j :: 0 <= i < j < |keys| ==> keys[i] != keys[j]
  }

  // ----- what an action asks for -----

  /** Only sender outputs; raw outputs rewrite the sink maps that other items read. */
  predicate OnSenders(action: Action) { forall oa :: oa in action ==> oa.output.SourceOutput? }

  predicate DistinctOutputs(action: Action) {
    forall i, j :: 0 <= i < j < |action| ==> action[i].output != action[j].output
  }

  predicate AsksFor(e: Entry, c: nat) { e.channel == Some(c) && e.input.Some? }

  /** The last entry that asks for a channel, if any does. */
  function LastEntry(es: seq<Entry>, c: nat): (e: Option<Entry>)
    ensures e.Some? ==> AsksFor(e.value, c) && e.value in es
    ensures e.None? ==> forall k :: 0 <= k < |es| ==> !AsksFor(es[k], c)
  {
    if es == [] then None
    else
      var n := |es| - 1;
      if AsksFor(es[n], c) then Some(es[n]) else LastEntry(es[..n], c)
  }

  function LastOf(action: Action, id: Id, c: nat): (e: Option<Entry>)
    ensures e.Some? ==> AsksFor(e.value, c)
  {
    if action == [] then None
    else
      var n := |action| - 1;
      var last := if action[n].output == SourceOutput(id) then LastEntry(action[n].entries, c) else None;
      if last.Some? then last else LastOf(action[..n], id, c)
  }

  /** The ALSA channel an acceptable entry asks for: that of a sink's channel, or its own. */
  function AskedFor(s: State, id: Id, e: Entry): (ch: Alsa)
    requires e.input.Some? && id in s.sources && Resolve(s, Sender(id), e).Some?
  {
    if e.input.value.SinkInput? then s.sinks[e.input.value.id][e.index] else e.input.value.channel
  }

  lemma AskedIsRequested(s: State, id: Id, e: Entry)
    requires e.input.Some? && id in s.sources && Resolve(s, Sender(id), e).Some?
    ensures Fits(s, Resolve(s, Sender(id), e).value)
    ensures Requested(s, Resolve(s, Sender(id), e).value) == AskedFor(s, id, e)
  {
  }

  lemma {:induction false} ApplyConcat(s: State, xs: seq<Item>, ys: seq<Item>)
    requires SenderItems(s, xs) && SenderItems(s, ys)
    ensures SenderItems(s, xs + ys) && Apply(s, xs).sinks == s.sinks
    ensures SenderItems(Apply(s, xs), ys) && Apply(s, xs + ys) == Apply(Apply(s, xs), ys)
  {
    SendersKeepSinks(s, xs);
    if ys == [] {
      assert xs + ys == xs;
    } else {
      var n := |ys| - 1;
      var before := ys[..n];
      assert xs + ys == (xs + before) + [ys[n]];
      assert (xs + ys)[..|xs + ys| - 1] == xs + before;
      ApplyConcat(s, xs, before);
    }
  }

  lemma {:induction false} SendersKeepSinks(s: State, items: seq<Item>)
    requires SenderItems(s, items)
    ensures Apply(s, items).sinks == s.sinks
  {
    if items != [] {
      assert items[|items| - 1] in items;
      SendersKeepSinks(s, items[..|items| - 1]);
    }
  }

  /** Applying one fragment: the last entry for a channel wins. */
  lemma {:induction false} FragmentCell(s: State, id: Id, es: seq<Entry>, id': Id, c: nat)
    requires id in s.sources && forall e :: e in es ==> Resolve(s, Sender(id), e).Some?
    ensures var items := ItemsOf(s, Sender(id), es);
            && SenderItems(s, items)
            && Cell(Apply(s, items), id', c) ==
               match if id' == id then LastEntry(es, c) else None
               case None => Cell(s, id', c)
               case Some(e) => Some(AskedFor(s, id, e))
  {
    hide Resolve;
    FragmentFits(s, id, es);
    if es != [] {
      var n := |es| - 1;
      var before, e := es[..n], es[n];
      assert es == before + [e];
      FragmentCell(s, id, before, id', c);
      var items := ItemsOf(s, Sender(id), es);
      var it := items[n];
      assert items[..n] == ItemsOf(s, Sender(id), before);
      SendersKeepSinks(s, items[..n]);
      ApplyItemCell(Apply(s, items[..n]), it, id', c);
      EntryTargets(s, id, e, id', c);
      if e.input.Some? {
        AskedIsRequested(s, id, e);
      }
    }
  }

  lemma FragmentFits(s: State, id: Id, es: seq<Entry>)
    requires id in s.sources && forall e :: e in es ==> Resolve(s, Sender(id), e).Some?
    ensures SenderItems(s, ItemsOf(s, Sender(id), es))
  {
    var items := ItemsOf(s, Sender(id), es);
    forall it | it in items
      ensures Fits(s, it) && it.output.Sender?
    {
      var k :| 0 <= k < |items| && items[k] == it;
      assert es[k] in es;
      ResolvedFits(s, Sender(id), es[k]);
    }
  }

  lemma EntryTargets(s: State, id: Id, e: Entry, id': Id, c: nat)
    requires id in s.sources && Resolve(s, Sender(id), e).Some?
    ensures Targets(Resolve(s, Sender(id), e).value, id', c) <==> id' == id && AsksFor(e, c)
  {
  }

  /** The last fragment of an action is applied to what the others did. */
  lemma LastFragment(s: State, action: Action)
    requires Accepts(s, action) && OnSenders(action) && action != []
    requires SenderItems(s, Items(s, action[..|action| - 1])) && Act(s, action[..|action| - 1]).sinks == s.sinks
    ensures var n, before := |action| - 1, Act(s, action[..|action| - 1]);
            var from, es := action[n].output.id, action[n].entries;
            && from in s.sources && SameLimits(s, before) && SenderItems(s, Items(s, action))
            && (forall e :: e in es ==> Resolve(before, Sender(from), e).Some?)
            && (forall e: Entry :: e.input.Some? && Resolve(s, Sender(from), e).Some? ==>
                  Resolve(before, Sender(from), e).Some? && AskedFor(before, from, e) == AskedFor(s, from, e))
            && SenderItems(before, ItemsOf(before, Sender(from), es))
            && Act(s, action) == Apply(before, ItemsOf(before, Sender(from), es))
  {
    hide Resolve;
    var n := |action| - 1;
    var oa := action[n];
    assert oa in action && AcceptsOutput(s, oa);
    var before := action[..n];
    assert forall ob :: ob in before ==> ob in action;
    FragmentFits(s, oa.output.id, oa.entries);
    ApplyConcat(s, Items(s, before), ItemsOf(s, Sender(oa.output.id), oa.entries));
    SameResolution(s, Act(s, before), oa.output.id, oa.entries);
  }

  /** What an accepted action on senders does, whatever it repeats: every channel takes what
      the last entry for it asks, from the sink maps as they were, and nothing else changes. */
  lemma {:induction false} LastEntryWins(s: State, action: Action, id: Id, c: nat)
    requires Accepts(s, action) && OnSenders(action)
    ensures Act(s, action).sinks == s.sinks && SenderItems(s, Items(s, action))
    ensures match LastOf(action, id, c)
            case None => Cell(Act(s, action), id, c) == Cell(s, id, c)
            case Some(e) =>
              && id in s.sources && Resolve(s, Sender(id), e).Some?
              && Cell(Act(s, action), id, c) == Some(AskedFor(s, id, e))
  {
    hide Resolve, Cell, SenderItems, AskedFor;
    if action == [] {
      assert SenderItems(s, []) by { NoSenderItems(s); }
    } else {
      var n := |action| - 1;
      var oa := action[n];
      assert oa in action && AcceptsOutput(s, oa);
      LastEntryWins(s, action[..n], id, c);
      LastFragment(s, action);
      var s' := Act(s, action[..n]);
      hide Act, Items;
      FragmentCell(s', oa.output.id, oa.entries, id, c);
      SendersKeepSinks(s', ItemsOf(s', Sender(oa.output.id), oa.entries));
    }
  }

  lemma NoSenderItems(s: State)
    ensures SenderItems(s, [])
  {
  }

  /** Resolving only looks at sinks and at the numbers of channels. */
  predicate SameLimits(s: State, t: State) { SameShape(s, t) && s.sinks == t.sinks }

  lemma SameResolution(s: State, t: State, id: Id, es: seq<Entry>)
    requires SameLimits(s, t) && id in s.sources
    ensures forall e :: Resolve(t, Sender(id), e) == Resolve(s, Sender(id), e)
    ensures (forall e :: e in es ==> Resolve(s, Sender(id), e).Some?) ==>
              ItemsOf(t, Sender(id), es) == ItemsOf(s, Sender(id), es)
    ensures forall e: Entry :: e.input.Some? && Resolve(s, Sender(id), e).Some? ==> AskedFor(t, id, e) == AskedFor(s, id, e)
  {
  }

  predicate From(s: State, oa: OutputAction, it: Item)
    requires AcceptsOutput(s, oa)
  {
    it in ItemsOf(s, ResolveOutput(s, oa.output).value, oa.entries)
  }

  lemma {:induction false} ItemsComeFrom(s: State, action: Action, it: Item)
    requires Accepts(s, action)
    ensures it in Items(s, action) <==> exists oa :: oa in action && AcceptsOutput(s, oa) && From(s, oa, it)
  {
    if action != [] {
      var n := |action| - 1;
      ItemsComeFrom(s, action[..n], it);
      assert action == action[..n] + [action[n]];
      assert AcceptsOutput(s, action[n]);
      assert it in Items(s, action) <==> it in Items(s, action[..n]) || From(s, action[n], it);
    }
  }

  lemma ItemOutput(s: State, oa: OutputAction, it: Item)
    requires AcceptsOutput(s, oa) && From(s, oa, it)
    ensures it.output == ResolveOutput(s, oa.output).value
  {
  }

  // ----- firing the stored form -----

  /** Another fragment for the same output follows. */
  predicate Dropped(action: Action, i: nat)
    requires i < |action|
  {
    exists j :: i < j < |action| && action[j].output == action[i].output
  }

  /** What the stored form holds for an output is its last fragment. */
  lemma {:induction false} KeptFragment(action: Action, u: Uuid) returns (j: nat)
    requires Names(action, u)
    ensures j < |action| && action[j].output == u && !Dropped(action, j)
    ensures u in Canonical(action) && Canonical(action)[u] == Normals(action[j].entries)
  {
    hide Normals;
    var n := |action| - 1;
    var before := action[..n];
    assert action == before + [action[n]];
    if action[n].output == u {
      j := n;
    } else {
      assert Names(before, u);
      j := KeptFragment(before, u);
    }
  }

  /** The stored form of an output's fragment is accepted alike and means the same. */
  lemma NormalMeansTheSame(s: State, oa: OutputAction)
    ensures var ob := OutputAction(oa.output, Normals(oa.entries));
            && (AcceptsOutput(s, ob) <==> AcceptsOutput(s, oa))
            && (AcceptsOutput(s, oa) ==> forall it :: From(s, ob, it) <==> From(s, oa, it))
  {
    var es := Normals(oa.entries);
    if ResolveOutput(s, oa.output).Some? {
      var output := ResolveOutput(s, oa.output).value;
      forall i | 0 <= i < |es|
        ensures Resolve(s, output, es[i]) == Resolve(s, output, oa.entries[i])
      {
      }
      if AcceptsOutput(s, oa) {
        assert ItemsOf(s, output, es) == ItemsOf(s, output, oa.entries);
      }
    }
  }

  lemma {:induction false} StoredEntries(es: seq<Entry>, c: nat)
    ensures LastEntry(Normals(es), c) == LastEntry(es, c)
  {
    if es != [] {
      StoredEntries(es[..|es| - 1], c);
      assert Normals(es)[..|es| - 1] == Normals(es[..|es| - 1]);
    }
  }

  /** The last entries of a stored action are those of the one fragment for the output. */
  lemma {:induction false} LastOfListing(m: map<Uuid, seq<Entry>>, keys: seq<Uuid>, id: Id, c: nat)
    requires (forall u :: u in keys ==> u in m) && forall i, j :: 0 <= i < j < |keys| ==> keys[i] != keys[j]
    ensures LastOf(Listing(m, keys), id, c) ==
            if SourceOutput(id) in keys then LastEntry(m[SourceOutput(id)], c) else None
  {
    hide LastEntry;
    if keys != [] {
      var n := |keys| - 1;
      var before := keys[..n];
      assert keys == before + [keys[n]];
      assert forall u :: u in before ==> u in keys;
      assert Listing(m, keys)[..n] == Listing(m, before);
      assert keys[n] !in before;
      LastOfListing(m, before, id, c);
    }
  }

  /** Dropping only entries that clear leaves the last entries as they are. */
  predicate DropsClears(action: Action) {
    forall i, e :: 0 <= i < |action| && Dropped(action, i) && e in action[i].entries ==> e.input.None?
  }

  lemma {:induction false} LastIsKept(action: Action, id: Id, c: nat)
    requires DropsClears(action)
    ensures LastOf(action, id, c) ==
            if Names(action, SourceOutput(id)) then LastEntry(Canonical(action)[SourceOutput(id)], c) else None
  {
    hide Normals;
    if action != [] {
      var n := |action| - 1;
      var before, u := action[..n], SourceOutput(id);
      assert action == before + [action[n]];
      forall i, e | 0 <= i < n && Dropped(before, i) && e in before[i].entries
        ensures e.input.None?
      {
        assert Dropped(action, i) && e in action[i].entries;
      }
      LastIsKept(before, id, c);
      StoredEntries(action[n].entries, c);
      if action[n].output == u {
        if Names(before, u) {
          var j := KeptFragment(before, u);
          assert before[j] == action[j] && Dropped(action, j);
          StoredEntries(action[j].entries, c);
        }
      } else {
        assert Names(action, u) <==> Names(before, u);
      }
    }
  }

  /** A stored action is accepted when its last fragments are. */
  lemma StoredAccepted(s: State, action: Action, keys: seq<Uuid>)
    requires Enumerates(keys, Canonical(action))
    ensures Accepts(s, Listing(Canonical(action), keys)) <==>
            forall j :: 0 <= j < |action| && !Dropped(action, j) ==> AcceptsOutput(s, action[j])
  {
    hide AcceptsOutput, Canonical, Normals, Dropped;
    var m := Canonical(action);
    var stored := Listing(m, keys);
    if Accepts(s, stored) {
      forall j | 0 <= j < |action| && !Dropped(action, j)
        ensures AcceptsOutput(s, action[j])
      {
        assert Names(action, action[j].output);
        var k := KeptFragment(action, action[j].output);
        OneKept(action, j, k);
        var i :| 0 <= i < |keys| && keys[i] == action[j].output;
        assert stored[i] in stored;
        NormalMeansTheSame(s, action[j]);
      }
    } else {
      var ob :| ob in stored && !AcceptsOutput(s, ob);
      var i :| 0 <= i < |keys| && stored[i] == ob;
      assert keys[i] in m && Names(action, keys[i]);
      var j := KeptFragment(action, keys[i]);
      NormalMeansTheSame(s, action[j]);
    }
  }

  lemma OneKept(action: Action, j: nat, k: nat)
    requires j < |action| && k < |action| && action[j].output == action[k].output
    requires !Dropped(action, j) && !Dropped(action, k)
    ensures j == k
  {
  }

  /** An entry that clears a channel and cannot be refused when the kept entry `f` is not. */
  predicate Within(e: Entry, f: Entry) {
    e.channel.Some? && f.channel.Some? && 0 <= e.channel.value <= f.channel.value
  }

  predicate Covered(action: Action, u: Uuid, e: Entry) {
    && e.input.None?
    && exists j, f :: 0 <= j < |action| && !Dropped(action, j) && action[j].output == u
                      && f in action[j].entries && Within(e, f)
  }

  /** Whatever the stored form leaves out clears a channel at or below one that it still names. */
  predicate Harmless(action: Action) {
    forall i, e :: 0 <= i < |action| && Dropped(action, i) && e in action[i].entries ==>
      Covered(action, action[i].output, e)
  }

  predicate Alike(s: State, action: Action, stored: Action) {
    (Accepts(s, stored) <==> Accepts(s, action)) && Act(s, stored) == Act(s, action)
  }

  lemma CoveredAccepted(s: State, action: Action, i: nat)
    requires OnSenders(action) && Harmless(action) && i < |action| && Dropped(action, i)
    requires forall j :: 0 <= j < |action| && !Dropped(action, j) ==> AcceptsOutput(s, action[j])
    ensures AcceptsOutput(s, action[i])
  {
    hide Dropped, AcceptsOutput;
    var u := action[i].output;
    assert action[i] in action && Names(action, u);
    var k := KeptFragment(action, u);
    OutputAccepted(s, action[k]);
    forall e | e in action[i].entries
      ensures Resolve(s, Sender(u.id), e).Some?
    {
      assert Covered(action, u, e);
      var j, f :| 0 <= j < |action| && !Dropped(action, j) && action[j].output == u
                  && f in action[j].entries && Within(e, f);
      OutputAccepted(s, action[j]);
    }
    OutputAccepted(s, action[i]);
  }

  lemma OutputAccepted(s: State, oa: OutputAction)
    requires oa.output.SourceOutput?
    ensures AcceptsOutput(s, oa) <==>
            oa.output.id in s.sources && forall e :: e in oa.entries ==> Resolve(s, Sender(oa.output.id), e).Some?
  {
  }

  /** Whatever the state when it fires, and in whatever order the output ids sort: the stored
      form of a harmless action on senders is accepted when the request itself would be, and
      does the same. Channels may repeat inside an output. */
  lemma StoredFormFiresAlike(s: State, action: Action, keys: seq<Uuid>)
    requires OnSenders(action) && Harmless(action) && Enumerates(keys, Canonical(action))
    ensures Alike(s, action, Listing(Canonical(action), keys))
  {
    hide AcceptsOutput, Canonical, Listing, Dropped, SenderItems, Covered, Cell;
    var stored := Listing(Canonical(action), keys);
    StoredAccepted(s, action, keys);
    if Accepts(s, stored) {
      forall oa | oa in action
        ensures AcceptsOutput(s, oa)
      {
        var i :| 0 <= i < |action| && action[i] == oa;
        if Dropped(action, i) {
          CoveredAccepted(s, action, i);
        }
      }
    }
    if Accepts(s, action) && Accepts(s, stored) {
      StoredOnSenders(action, keys);
      DropsOnlyClears(action);
      forall id: Id, c: nat
        ensures Cell(Act(s, stored), id, c) == Cell(Act(s, action), id, c)
        ensures Act(s, stored).sinks == Act(s, action).sinks
      {
        LastIsKept(action, id, c);
        LastOfListing(Canonical(action), keys, id, c);
        LastEntryWins(s, action, id, c);
        LastEntryWins(s, stored, id, c);
      }
      LastEntryWins(s, action, 0, 0);
      LastEntryWins(s, stored, 0, 0);
      SameCells(Act(s, stored), Act(s, action));
    }
  }

  lemma DropsOnlyClears(action: Action)
    requires Harmless(action)
    ensures DropsClears(action)
  {
  }

  lemma StoredOnSenders(action: Action, keys: seq<Uuid>)
    requires OnSenders(action) && Enumerates(keys, Canonical(action))
    ensures OnSenders(Listing(Canonical(action), keys))
  {
    hide Canonical;
    var stored := Listing(Canonical(action), keys);
    forall ob | ob in stored
      ensures ob.output.SourceOutput?
    {
      var i :| 0 <= i < |keys| && stored[i] == ob;
      assert Names(action, keys[i]);
    }
  }

  /** An action that names each output once drops nothing. */
  lemma DistinctOutputsAreHarmless(action: Action)
    requires DistinctOutputs(action)
    ensures Harmless(action)
  {
  }

  // ----- when an output is named more than once -----

  /** No channel of an output is named twice anywhere in the action. */
  predicate DistinctCells(action: Action) {
    forall i, a, j, b ::
      (0 <= i < |action| && 0 <= a < |action[i].entries| && 0 <= j < |action| && 0 <= b < |action[j].entries|
       && action[i].output == action[j].output
       && action[i].entries[a].channel == action[j].entries[b].channel) ==> i == j && a == b
  }

  lemma {:induction false} OnlyEntry(action: Action, i: nat, a: nat, id: Id, c: nat)
    requires DistinctCells(action) && i < |action| && a < |action[i].entries|
    requires action[i].output == SourceOutput(id) && AsksFor(action[i].entries[a], c)
    ensures LastOf(action, id, c) == Some(action[i].entries[a])
  {
    var n := |action| - 1;
    if action[n].output == SourceOutput(id) {
      var last := LastEntry(action[n].entries, c);
      if last.Some? {
        var b :| 0 <= b < |action[n].entries| && action[n].entries[b] == last.value;
        assert i == n && a == b;
      } else {
        assert i != n;
      }
    }
    if i < n {
      assert action[..n][i] == action[i];
      OnlyEntry(action[..n], i, a, id, c);
    }
  }

  /** Changing the channel that a dropped entry asks for shows the difference. */
  lemma DroppedRequestShows(s0: State, action: Action, keys: seq<Uuid>, i: nat, a: nat)
    returns (s: State)
    requires OnSenders(action) && DistinctCells(action) && Accepts(s0, action) && Enumerates(keys, Canonical(action))
    requires i < |action| && Dropped(action, i) && a < |action[i].entries| && action[i].entries[a].input.Some?
    ensures !Alike(s, action, Listing(Canonical(action), keys))
  {
    hide Canonical, Listing, Accepts, AcceptsOutput, Resolve, Act;
    var id, e := action[i].output.id, action[i].entries[a];
    EntryAccepted(s0, action, i, a);
    var c: nat := e.channel.value;
    var v := AskedFor(s0, id, e);
    s := s0.(sources := s0.sources[id := With(s0.sources[id], c, if v == 0 then 1 else 0)]);
    assert SameLimits(s0, s);
    SameAcceptance(s0, s, action);
    SameResolution(s0, s, id, []);
    LastEntryWins(s, action, id, c);
    OnlyEntry(action, i, a, id, c);
    var stored := Listing(Canonical(action), keys);
    StoredOnSenders(action, keys);
    NotStored(action, keys, i, a, id, c);
    if Accepts(s, stored) {
      LastEntryWins(s, stored, id, c);
    }
  }

  lemma EntryAccepted(s: State, action: Action, i: nat, a: nat)
    requires OnSenders(action) && Accepts(s, action) && i < |action| && a < |action[i].entries|
    ensures var id, e := action[i].output.id, action[i].entries[a];
            && id in s.sources && Resolve(s, Sender(id), e).Some?
            && e.channel.Some? && 0 <= e.channel.value < |s.sources[id]|
  {
    assert action[i] in action && AcceptsOutput(s, action[i]) && action[i].entries[a] in action[i].entries;
  }

  lemma SameAcceptance(s: State, t: State, action: Action)
    requires SameLimits(s, t) && OnSenders(action) && Accepts(s, action)
    ensures Accepts(t, action)
  {
    hide Resolve, AcceptsOutput;
    forall oa | oa in action
      ensures AcceptsOutput(t, oa)
    {
      assert AcceptsOutput(s, oa);
      OutputAccepted(s, oa);
      SameResolution(s, t, oa.output.id, []);
      OutputAccepted(t, oa);
    }
  }

  /** The fragment that is kept does not name a channel of one that is dropped. */
  lemma NotStored(action: Action, keys: seq<Uuid>, i: nat, a: nat, id: Id, c: nat)
    requires DistinctCells(action) && Enumerates(keys, Canonical(action))
    requires i < |action| && Dropped(action, i) && a < |action[i].entries|
    requires action[i].output == SourceOutput(id) && action[i].entries[a].channel == Some(c)
    ensures LastOf(Listing(Canonical(action), keys), id, c) == None
  {
    hide Canonical, Listing, Normals;
    var u := SourceOutput(id);
    assert action[i] in action && Names(action, u);
    var j := KeptFragment(action, u);
    LastOfListing(Canonical(action), keys, id, c);
    StoredEntries(action[j].entries, c);
  }

  /** With just the channels that the kept fragment names, the dropped one is refused. */
  lemma DroppedClearShows(s0: State, action: Action, keys: seq<Uuid>, i: nat, a: nat)
    returns (s: State)
    requires OnSenders(action) && Accepts(s0, action) && Enumerates(keys, Canonical(action))
    requires i < |action| && Dropped(action, i) && a < |action[i].entries| && action[i].entries[a].input.None?
    requires !Covered(action, action[i].output, action[i].entries[a])
    ensures !Alike(s, action, Listing(Canonical(action), keys))
  {
    hide Canonical, Listing, Act, Dropped;
    var u, e := action[i].output, action[i].entries[a];
    EntryAccepted(s0, action, i, a);
    var c: nat := e.channel.value;
    s := s0.(sources := s0.sources[u.id := s0.sources[u.id][..c]]);
    assert !Accepts(s, action) by {
      assert action[i] in action && e in action[i].entries;
      OutputAccepted(s, action[i]);
    }
    forall j | 0 <= j < |action| && !Dropped(action, j)
      ensures AcceptsOutput(s, action[j])
    {
      ShorterAccepts(s0, s, action, j, u, e, c);
    }
    StoredAccepted(s, action, keys);
  }

  lemma ShorterAccepts(s0: State, s: State, action: Action, j: nat, u: Uuid, e: Entry, c: nat)
    requires OnSenders(action) && Accepts(s0, action) && j < |action| && !Dropped(action, j)
    requires u.SourceOutput? && u.id in s0.sources && c < |s0.sources[u.id]| && e.channel == Some(c) && e.input.None?
    requires s == s0.(sources := s0.sources[u.id := s0.sources[u.id][..c]])
    requires !Covered(action, u, e)
    ensures AcceptsOutput(s, action[j])
  {
    hide Dropped;
    forall b | 0 <= b < |action[j].entries|
      ensures Resolve(s, Sender(action[j].output.id), action[j].entries[b]).Some?
    {
      EntryAccepted(s0, action, j, b);
      var f := action[j].entries[b];
      assert f in action[j].entries;
      if action[j].output == u {
        assert !Within(e, f);
      }
    }
    OutputAccepted(s0, action[j]);
    assert AcceptsOutput(s0, action[j]);
  }

  /** For an action that names no channel twice and that some state accepts: the stored form
      acts like the request in every state if and only if it is harmless. */
  lemma AlikeExactlyWhenHarmless(s0: State, action: Action, keys: seq<Uuid>)
    requires OnSenders(action) && DistinctCells(action) && Accepts(s0, action) && Enumerates(keys, Canonical(action))
    ensures (forall s: State :: Alike(s, action, Listing(Canonical(action), keys))) <==> Harmless(action)
  {
    hide Alike, Canonical, Listing, Covered, Dropped;
    var stored := Listing(Canonical(action), keys);
    if Harmless(action) {
      forall s: State
        ensures Alike(s, action, stored)
      {
        StoredFormFiresAlike(s, action, keys);
      }
    } else {
      var i, e :| 0 <= i < |action| && Dropped(action, i) && e in action[i].entries
                  && !Covered(action, action[i].output, e);
      var a :| 0 <= a < |action[i].entries| && action[i].entries[a] == e;
      var s: State;
      if e.input.Some? {
        s := DroppedRequestShows(s0, action, keys, i, a);
      } else {
        s := DroppedClearShows(s0, action, keys, i, a);
      }
    }
  }

  /** A request for one sender channel to take an ALSA channel. */
  function Take(id: Id, c: nat, ch: Alsa): (oa: OutputAction) {
    OutputAction(SourceOutput(id), [Entry(Some(c), Some(AlsaInput(ch)), 0)])
  }

  lemma TakeItems(s: State, id: Id, c: nat, ch: Alsa, before: Action)
    requires Accepts(s, before) && id in s.sources && c < |s.sources[id]| && ch < s.alsa
    ensures Accepts(s, before + [Take(id, c, ch)])
    ensures Items(s, before + [Take(id, c, ch)]) == Items(s, before) + [Item(Sender(id), c, Some(Capture(ch)), 0)]
  {
  }

  lemma TakeOne(s: State, id: Id, c: nat, d: nat, dh: Alsa)
    requires id in s.sources && d < |s.sources[id]| && c != d && dh < s.alsa
    ensures Cell(Act(s, [Take(id, d, dh)]), id, c) == Cell(s, id, c)
  {
    hide Items, Apply, Take, Accepts;
    var y, j := Take(id, d, dh), Item(Sender(id), d, Some(Capture(dh)), 0);
    NothingAccepted(s);
    TakeItems(s, id, d, dh, []);
    assert [] + [y] == [y] && [] + [j] == [j];
    Effect(s, [j], id, c);
    assert !Targeted([j], id, c);
  }

  lemma TakeTwo(s: State, id: Id, c: nat, ch: Alsa, d: nat, dh: Alsa)
    requires id in s.sources && c < |s.sources[id]| && d < |s.sources[id]| && c != d && ch < s.alsa && dh < s.alsa
    ensures Cell(Act(s, [Take(id, c, ch), Take(id, d, dh)]), id, c) == Some(ch)
  {
    hide Items, Apply, Take, Accepts;
    var x, y := Take(id, c, ch), Take(id, d, dh);
    var i, j := Item(Sender(id), c, Some(Capture(ch)), 0), Item(Sender(id), d, Some(Capture(dh)), 0);
    NothingAccepted(s);
    TakeItems(s, id, c, ch, []);
    TakeItems(s, id, d, dh, [x]);
    assert [] + [x] == [x] && [x] + [y] == [x, y] && [] + [i] == [i] && [i] + [j] == [i, j];
    Effect(s, [i, j], id, c);
    assert i in [i, j] && Targets(i, id, c);
  }

  lemma RepeatedCanonical(id: Id, c: nat, ch: Alsa, d: nat, dh: Alsa)
    ensures Canonical([Take(id, c, ch), Take(id, d, dh)]) == map[SourceOutput(id) := Take(id, d, dh).entries]
    ensures Listing(Canonical([Take(id, c, ch), Take(id, d, dh)]), [SourceOutput(id)]) == [Take(id, d, dh)]
  {
    var x, y := Take(id, c, ch), Take(id, d, dh);
    assert Normals(y.entries) == y.entries;
    assert [x, y][..1] == [x] && [x][..0] == [];
    assert Canonical([x]) == map[SourceOutput(id) := Normals(x.entries)];
  }

  /** An output listed twice is the exception: applied at once both fragments take effect, the
      stored form has only the last one, although the cells are different. */
  lemma RepeatedOutputIsLost(s: State, id: Id, c: nat, ch: Alsa, d: nat, dh: Alsa)
    requires id in s.sources && c < |s.sources[id]| && d < |s.sources[id]| && c != d && ch < s.alsa && dh < s.alsa
    ensures var action := [Take(id, c, ch), Take(id, d, dh)];
            && Enumerates([SourceOutput(id)], Canonical(action))
            && Cell(Act(s, action), id, c) == Some(ch)
            && Cell(Act(s, Listing(Canonical(action), [SourceOutput(id)])), id, c) == Cell(s, id, c)
  {
    hide Canonical, Listing, Act, Take;
    RepeatedCanonical(id, c, ch, d, dh);
    TakeTwo(s, id, c, ch, d, dh);
    TakeOne(s, id, c, d, dh);
  }

  lemma NothingAccepted(s: State)
    ensures Accepts(s, []) && Items(s, []) == []
  {
  }

  /** Where no target repeats, every requested channel is taken as asked, from the sink maps as
      they were, and nothing else changes. */
  lemma ActionEffect(s: State, action: Action)
    requires Accepts(s, action) && SenderItems(s, Items(s, action)) && DistinctTargets(Items(s, action))
    ensures Act(s, action).sinks == s.sinks
    ensures forall it :: it in Items(s, action) && it.input.Some? ==>
              && Fits(s, it) && it.output.Sender?
              && Cell(Act(s, action), it.output.id, it.channel) == Some(Requested(s, it))
    ensures forall id: Id, c: nat :: !Targeted(Items(s, action), id, c) ==> Cell(Act(s, action), id, c) == Cell(s, id, c)
  {
    hide Cell;
    var items := Items(s, action);
    Effect(s, items, 0, 0);
    forall id: Id, c: nat | !Targeted(items, id, c)
      ensures Cell(Act(s, action), id, c) == Cell(s, id, c)
    {
      Effect(s, items, id, c);
    }
    forall it | it in items && it.input.Some?
      ensures Fits(s, it) && it.output.Sender?
      ensures Cell(Act(s, action), it.output.id, it.channel) == Some(Requested(s, it))
    {
      Effect(s, items, it.output.id, it.channel);
      assert Targets(it, it.output.id, it.channel);
    }
  }

  // ----- the imperative form -----

  class Mapper {
    const alsa: uint8
    var sources: map<Id, seq<Alsa>>
    var sinks: map<Id, seq<Alsa>>

    ghost function Now(): (s: State)
      reads this
    {
      State(sources, sinks, alsa)
    }

    constructor (sources: map<Id, seq<Alsa>>, sinks: map<Id, seq<Alsa>>, alsa: uint8)
      ensures Now() == State(sources, sinks, alsa)
    {
      this.sources, this.sinks, this.alsa := sources, sinks, alsa;
    }

    /** First resolves and checks everything, building the stored form, then applies. */
    method ApplyAction(action: Action, dryRun: bool) returns (ok: bool, canonical: map<Uuid, seq<Entry>>)
      modifies this
      ensures ok <==> Accepts(old(Now()), action)
      ensures Now() == if dryRun then old(Now()) else Act(old(Now()), action)
      ensures ok ==> canonical == Canonical(action)
    {
      canonical := map[];
      var work: seq<Item> := [];
      ghost var s := Now();
      var i := 0;
      while i < |action|
        invariant 0 <= i <= |action| && Now() == s
        invariant Accepts(s, action[..i]) && work == Items(s, action[..i])
        invariant canonical == Canonical(action[..i])
      {
        var oa := action[i];
        var more, fragment, good := CheckOutput(oa);
        if !good {
          assert oa in action;
          return false, canonical;
        }
        work := work + more;
        canonical := canonical[oa.output := fragment];
        assert action[..i + 1] == action[..i] + [oa];
        assert action[..i + 1][..i] == action[..i];
        i := i + 1;
      }
      assert action[..i] == action;
      ok := true;
      if dryRun {
        return;
      }
      ItemsFit(s, action);
      ApplyWork(work);
    }

    method ApplyWork(work: seq<Item>)
      requires forall it :: it in work ==> Fits(Now(), it)
      modifies this
      ensures Now() == Apply(old(Now()), work)
    {
      ghost var s := Now();
      var k := 0;
      while k < |work|
        invariant 0 <= k <= |work|
        invariant Now() == Apply(s, work[..k])
      {
        assert work[..k + 1][..k] == work[..k];
        assert work[k] in work;
        assert forall it :: it in work[..k + 1] ==> it in work;
        ApplyOne(work[k]);
        k := k + 1;
      }
      assert work[..k] == work;
    }

    /** One output of an action: its items and its stored fragment. */
    method CheckOutput(oa: OutputAction) returns (items: seq<Item>, fragment: seq<Entry>, good: bool)
      ensures good <==> AcceptsOutput(Now(), oa)
      ensures good ==> items == ItemsOf(Now(), ResolveOutput(Now(), oa.output).value, oa.entries)
      ensures good ==> fragment == Normals(oa.entries)
    {
      items, fragment := [], [];
      var s := State(sources, sinks, alsa);
      var output := ResolveOutput(s, oa.output);
      if output.None? {
        return items, fragment, false;
      }
      var j := 0;
      while j < |oa.entries|
        invariant 0 <= j <= |oa.entries|
        invariant forall e :: e in oa.entries[..j] ==> Resolve(s, output.value, e).Some?
        invariant items == ItemsOf(s, output.value, oa.entries[..j])
        invariant fragment == Normals(oa.entries[..j])
      {
        var e := oa.entries[j];
        var it := Resolve(s, output.value, e);
        if it.None? {
          assert e in oa.entries;
          return items, fragment, false;
        }
        assert oa.entries[..j + 1] == oa.entries[..j] + [e];
        assert oa.entries[..j + 1][..j] == oa.entries[..j];
        items := items + [it.value];
        fragment := fragment + [Normal(e)];
        j := j + 1;
      }
      assert oa.entries[..j] == oa.entries;
      good := true;
    }

    method ApplyOne(it: Item)
      requires Fits(Now(), it)
      modifies this
      ensures Now() == ApplyItem(old(Now()), it)
    {
      if it.input.None? {
        return;
      }
      match it.output {
        case Sender(id) =>
          var ch := match it.input.value
            case Repeat(sink) => sinks[sink][it.index]
            case Capture(c) => c;
          sources := sources[id := With(sources[id], it.channel, ch)];
        case Playback(ch) =>
          var sink := it.input.value.id;
          sinks := sinks[sink := With(sinks[sink], it.index, ch)];
      }
    }
  }
}
