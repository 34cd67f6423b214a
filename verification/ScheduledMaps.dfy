// What scheduled activations do to the maps.
module ScheduledMaps {
  import opened Text
  import opened ChannelMap
  import opened ChannelActions
  import opened RawOutputs
  import opened Schedule

  /** The only pending activation that is due. */
  predicate OnlyDue(q: Queue, id: nat, now: int) {
    && id in q.pending && q.pending[id].deadline <= now
    && forall other :: other in q.pending && other != id ==> q.pending[other].deadline > now
  }

  predicate NothingIsDue(q: Queue, now: int) { forall id :: id in q.pending ==> q.pending[id].deadline > now }

  lemma {:induction false} DueIsAlone(pending: map<nat, Pending>, order: seq<nat>, now: int, id: nat)
    requires (forall i :: i in order ==> i in pending) && Distinct(order) && id in pending && pending[id].deadline <= now
    requires forall other :: other in pending && other != id ==> pending[other].deadline > now
    ensures Due(pending, order, now) == if id in order then [id] else []
  {
    if order != [] {
      var n := |order| - 1;
      assert order == order[..n] + [order[n]];
      DueIsAlone(pending, order[..n], now, id);
      assert order[n] !in order[..n];
    }
  }

  lemma {:induction false} NoneAreDue(pending: map<nat, Pending>, order: seq<nat>, now: int)
    requires forall id :: id in order ==> id in pending
    requires forall id :: id in pending ==> pending[id].deadline > now
    ensures Due(pending, order, now) == []
  {
    if order != [] {
      assert order == order[..|order| - 1] + [order[|order| - 1]];
      NoneAreDue(pending, order[..|order| - 1], now);
    }
  }

  /** A pass that finds one activation due does its stored action and nothing else; a pass that
      finds none leaves the maps alone. */
  lemma PassDoesTheAction(q: Queue, order: seq<nat>, now: int, id: nat)
    requires Lists(order, q.pending)
    ensures OnlyDue(q, id, now) ==> Process(q, order, now).maps == Act(q.maps, q.pending[id].stored)
    ensures NothingIsDue(q, now) ==> Process(q, order, now).maps == q.maps
  {
    hide Act;
    if OnlyDue(q, id, now) {
      DueIsAlone(q.pending, order, now, id);
      assert [id][..0] == [];
      NoneFired(q.maps, q.pending, now);
      assert FireAll(q.maps, q.pending, [id]) == Act(q.maps, q.pending[id].stored);
    }
    if NothingIsDue(q, now) {
      NoneAreDue(q.pending, order, now);
    }
  }

  /** Cell by cell: the last entry of the stored action for a sender's channel is what the
      channel takes, and whatever the action does not ask for stays. */
  lemma PassSetsTheCells(q: Queue, order: seq<nat>, now: int, id: nat, sender: Id, c: nat)
    requires Lists(order, q.pending) && OnlyDue(q, id, now)
    requires Accepts(q.maps, q.pending[id].stored) && OnSenders(q.pending[id].stored)
    ensures var r := Process(q, order, now);
            && r.maps.sinks == q.maps.sinks
            && match LastOf(q.pending[id].stored, sender, c)
               case None => Cell(r.maps, sender, c) == Cell(q.maps, sender, c)
               case Some(e) =>
                 && sender in q.maps.sources && Resolve(q.maps, Sender(sender), e).Some?
                 && Cell(r.maps, sender, c) == Some(AskedFor(q.maps, sender, e))
  {
    PassDoesTheAction(q, order, now, id);
    LastEntryWins(q.maps, q.pending[id].stored, sender, c);
  }

  // ----- several activations in one pass -----

  lemma {:induction false} UnlockedStays(maps: State, pending: map<nat, Pending>, ids: seq<nat>, sender: Id)
    requires forall id :: id in ids ==> id in pending && SourceOutput(sender) !in Outputs(pending[id].stored)
    ensures SameShape(maps, FireAll(maps, pending, ids))
    ensures sender in maps.sources ==> FireAll(maps, pending, ids).sources[sender] == maps.sources[sender]
  {
    hide Act;
    if ids != [] {
      var n := |ids| - 1;
      assert ids[n] in ids && forall id :: id in ids[..n] ==> id in ids;
      UnlockedStays(maps, pending, ids[..n], sender);
      ActLeavesUnnamed(FireAll(maps, pending, ids[..n]), pending[ids[n]].stored, sender);
    }
  }

  lemma ActLeavesUnnamed(s: State, action: Action, sender: Id)
    requires SourceOutput(sender) !in Outputs(action)
    ensures SameShape(s, Act(s, action))
    ensures sender in s.sources ==> Act(s, action).sources[sender] == s.sources[sender]
  {
    hide Resolve;
    if Accepts(s, action) {
      var items := Items(s, action);
      ItemsFit(s, action);
      forall it | it in items
        ensures it.output != Sender(sender)
      {
        ItemsNameTheirOutputs(s, action, it);
      }
      OtherSendersStay(s, items, sender);
    }
  }

  lemma {:induction false} FireAllAppend(maps: State, pending: map<nat, Pending>, xs: seq<nat>, ys: seq<nat>)
    requires forall id :: id in xs + ys ==> id in pending
    ensures (forall id :: id in xs ==> id in pending) && (forall id :: id in ys ==> id in pending)
    ensures FireAll(maps, pending, xs + ys) == FireAll(FireAll(maps, pending, xs), pending, ys)
  {
    hide Act;
    assert forall id :: id in xs ==> id in xs + ys;
    assert forall id :: id in ys ==> id in xs + ys;
    if ys == [] {
      assert xs + ys == xs;
    } else {
      var n := |ys| - 1;
      assert (xs + ys)[..|xs + ys| - 1] == xs + ys[..n];
      assert forall id :: id in xs + ys[..n] ==> id in xs + ys;
      FireAllAppend(maps, pending, xs, ys[..n]);
    }
  }

  /** Every pending activation stores only what it locks, as posting makes them. */
  ghost predicate LocksWhatItStores(q: Queue) {
    forall id :: id in q.pending ==> Outputs(q.pending[id].stored) <= q.pending[id].locked
  }

  lemma UnlockedCellStays(maps: State, pending: map<nat, Pending>, ids: seq<nat>, sender: Id, c: nat)
    requires forall id :: id in ids ==> id in pending && SourceOutput(sender) !in Outputs(pending[id].stored)
    ensures SameShape(maps, FireAll(maps, pending, ids))
    ensures Cell(FireAll(maps, pending, ids), sender, c) == Cell(maps, sender, c)
  {
    UnlockedStays(maps, pending, ids, sender);
  }

  /** The activations around one of them do not touch its sender. */
  lemma AroundOne(maps: State, pending: map<nat, Pending>, before: seq<nat>, id: nat, after: seq<nat>, sender: Id, c: nat)
    requires forall i :: i in before || i in after ==> i in pending && SourceOutput(sender) !in Outputs(pending[i].stored)
    requires id in pending && forall i :: i in before + [id] + after ==> i in pending
    ensures (forall i :: i in before ==> i in pending) && SameShape(maps, FireAll(maps, pending, before))
    ensures var at := FireAll(maps, pending, before);
            && Cell(at, sender, c) == Cell(maps, sender, c)
            && Cell(FireAll(maps, pending, before + [id] + after), sender, c) == Cell(Act(at, pending[id].stored), sender, c)
  {
    hide Act, Outputs, Cell, SameShape;
    assert forall i :: i in before + [id] ==> i in before + [id] + after;
    FireAllAppend(maps, pending, before + [id], after);
    FireAllAppend(maps, pending, before, [id]);
    assert [id][..0] == [];
    UnlockedCellStays(maps, pending, before, sender, c);
    UnlockedCellStays(Act(FireAll(maps, pending, before), pending[id].stored), pending, after, sender, c);
  }

  /** A sender locked by a due activation: whatever else is due in the same pass, its channels
      end up as that activation's action leaves them, done at once on maps in which the sender
      is as it was before the pass. */
  lemma LockedSenderIsSet(q: Queue, order: seq<nat>, now: int, id: nat, sender: Id, c: nat) returns (maps: State)
    requires Inv(q) && LocksWhatItStores(q) && Lists(order, q.pending)
    requires id in q.pending && q.pending[id].deadline <= now && SourceOutput(sender) in q.pending[id].locked
    ensures SameShape(q.maps, maps) && Cell(maps, sender, c) == Cell(q.maps, sender, c)
    ensures Cell(Process(q, order, now).maps, sender, c) == Cell(Act(maps, q.pending[id].stored), sender, c)
    ensures maps == FireAll(q.maps, q.pending, DueBefore(q, order, now, id))
  {
    hide Act, Cell, SameShape, FireAll, Due, Inv, LocksWhatItStores;
    var before := DueBefore(q, order, now, id);
    var after := OthersAreDue(q, order, now, id);
    AroundOne(q.maps, q.pending, before, id, after, sender, c);
    maps := FireAll(q.maps, q.pending, before);
  }

  lemma OthersAreDue(q: Queue, order: seq<nat>, now: int, id: nat) returns (after: seq<nat>)
    requires Inv(q) && LocksWhatItStores(q) && Lists(order, q.pending)
    requires id in q.pending && q.pending[id].deadline <= now
    ensures Due(q.pending, order, now) == DueBefore(q, order, now, id) + [id] + after
    ensures forall i :: i in DueBefore(q, order, now, id) || i in after ==>
              i in q.pending && Outputs(q.pending[i].stored) !! q.pending[id].locked
  {
    var due, before := Due(q.pending, order, now), DueBefore(q, order, now, id);
    DueAreDistinct(q.pending, order, now);
    after := due[|before| + 1..];
    assert due == before + [id] + after;
    assert forall i :: i in before || i in after ==> i in due && i != id;
    forall i | i in before || i in after
      ensures i in q.pending && Outputs(q.pending[i].stored) !! q.pending[id].locked
    {
      assert q.pending[i].locked !! q.pending[id].locked;
    }
  }

  /** The due activations that are done in front of `id`. */
  ghost function DueBefore(q: Queue, order: seq<nat>, now: int, id: nat): (before: seq<nat>)
    requires Lists(order, q.pending) && id in q.pending && q.pending[id].deadline <= now
    ensures var due := Due(q.pending, order, now);
            |before| < |due| && before == due[..|before|] && due[|before|] == id
  {
    var due := Due(q.pending, order, now);
    assert id in due;
    var k :| 0 <= k < |due| && due[k] == id;
    due[..k]
  }

  // ----- from the request to the pass -----

  /** A request that is accepted for later: due when it says, with the outputs it names locked. */
  lemma PostedAsAsked(q: Queue, r: Request, now: int)
    requires r.action.Some? && Enumerates(r.keys, Canonical(r.action.value)) && Post(q, r, now).1.Scheduled?
    ensures var q' := Post(q, r, now).0;
            && q'.counter == q.counter + 1 && q'.counter in q'.pending && q'.maps == q.maps
            && (forall id :: id in q.pending ==> id == q'.counter || (id in q'.pending && q'.pending[id] == q.pending[id]))
            && var p := q'.pending[q'.counter];
               && (r.mode == Relative || r.mode == Absolute) && r.time.Some?
               && (r.mode == Relative ==> p.deadline == now + r.time.value)
               && (r.mode == Absolute ==> p.deadline == r.time.value)
               && p.stored == Listing(Canonical(r.action.value), r.keys)
               && forall u :: u in p.locked <==> exists oa :: oa in r.action.value && oa.output == u
  {
  }

  /** Deleting takes out one pending activation, with its locks, and nothing else. */
  lemma DeleteAnswers(q: Queue, id: nat)
    ensures var (q', response) := Delete(q, id);
            && (response == Deleted <==> id in q.pending) && (response == NotFound <==> id !in q.pending)
            && q' == q.(pending := q.pending - {id})
  {
    assert id !in q.pending ==> q.pending - {id} == q.pending;
  }

  predicate AnyNamedLocked(q: Queue, action: Action) {
    exists oa, id :: oa in action && id in q.pending && oa.output in q.pending[id].locked
  }

  /** What each answer to a request means, and what it does. */
  lemma PostAnswers(q: Queue, r: Request, now: int)
    requires r.action.Some? ==> Enumerates(r.keys, Canonical(r.action.value))
    ensures var (q', response) := Post(q, r, now);
            var known := r.mode != Unknown && r.action.Some?;
            && (response == Locked <==> known && AnyNamedLocked(q, r.action.value))
            && (response == Done <==>
                  known && !AnyNamedLocked(q, r.action.value) && Accepts(q.maps, r.action.value) && r.mode == Immediate)
            && (response == Scheduled <==>
                  known && !AnyNamedLocked(q, r.action.value) && Accepts(q.maps, r.action.value)
                  && r.mode != Immediate && r.time.Some?)
            && response in {Locked, Done, Scheduled, BadRequest}
            && q'.maps == (if response == Done then Act(q.maps, r.action.value) else q.maps)
            && (response != Scheduled ==> q'.pending == q.pending) && q'.log == q.log
  {
    hide Act, Accepts, Canonical, Listing;
    if r.action.Some? {
      LockedIsNamed(q, r.action.value);
    }
  }

  lemma LockedIsNamed(q: Queue, action: Action)
    ensures AnyLocked(q.pending, action) <==> AnyNamedLocked(q, action)
  {
    if AnyNamedLocked(q, action) {
      var oa, id :| oa in action && id in q.pending && oa.output in q.pending[id].locked;
      assert oa.output in Outputs(action) && LockedIn(q.pending, oa.output);
    }
  }

  lemma {:induction false} PendingStays(qs: seq<Queue>, ops: seq<Op>, i: nat, j: nat, id: nat)
    requires Run(qs, ops) && i <= j < |qs| && id in qs[i].pending && id in qs[j].pending
    ensures qs[j].pending[id] == qs[i].pending[id]
  {
    hide Post, Process, Inv;
    if i < j {
      RunKeeps(qs, ops, j - 1);
      if id in qs[j - 1].pending {
        PendingStays(qs, ops, i, j - 1, id);
        SamePending(qs[j - 1], ops[j - 1], id);
      } else {
        RunKeeps(qs, ops, i);
        CounterGrows(qs, ops, i, j - 1);
        NumbersAreCounted(qs[i], id);
        GoneStaysGone(qs, ops, j - 1, j, id);
      }
    }
  }

  lemma SamePending(q: Queue, op: Op, id: nat)
    requires Inv(q) && Enabled(q, op) && id in q.pending && id in Step(q, op).pending
    ensures Step(q, op).pending[id] == q.pending[id]
  {
    PendingUntilDue(q, op, id);
  }

  lemma NumbersAreCounted(q: Queue, id: nat)
    requires Inv(q) && id in q.pending
    ensures id <= q.counter
  {
  }

  lemma {:induction false} CounterGrows(qs: seq<Queue>, ops: seq<Op>, i: nat, j: nat)
    requires Run(qs, ops) && i <= j < |qs|
    ensures qs[i].counter <= qs[j].counter
  {
    hide Post, Process;
    if i < j {
      CounterGrows(qs, ops, i, j - 1);
      CounterStep(qs[j - 1], ops[j - 1]);
    }
  }

  lemma CounterStep(q: Queue, op: Op)
    requires Enabled(q, op)
    ensures q.counter <= Step(q, op).counter
  {
  }

  /** In any run: a harmless request on senders that was accepted for later, and that a pass then
      finds due alone, does to the maps exactly what the same request would do if it were served
      at once in place of the pass. */
  lemma ScheduledFiresAsRequested(qs: seq<Queue>, ops: seq<Op>, i: nat, j: nat, order: seq<nat>, now: int)
    requires Run(qs, ops) && i < j < |qs| && ops[i].PostOp? && ops[i].r.action.Some?
    requires Post(qs[i], ops[i].r, ops[i].now).1.Scheduled?
    requires OnSenders(ops[i].r.action.value) && Harmless(ops[i].r.action.value)
    requires Lists(order, qs[j].pending) && OnlyDue(qs[j], qs[i].counter + 1, now)
    ensures Process(qs[j], order, now).maps == Act(qs[j].maps, ops[i].r.action.value)
  {
    hide Act, Process, Harmless, OnSenders;
    var r, id := ops[i].r, qs[i].counter + 1;
    assert Enabled(qs[i], ops[i]) && qs[i + 1] == Step(qs[i], ops[i]);
    PostedAsAsked(qs[i], r, ops[i].now);
    PendingStays(qs, ops, i + 1, j, id);
    PassDoesTheAction(qs[j], order, now, id);
    StoredFormFiresAlike(qs[j].maps, r.action.value, r.keys);
  }

  lemma {:induction false} RunLocksWhatItStores(qs: seq<Queue>, ops: seq<Op>, i: nat)
    requires Run(qs, ops) && i < |qs|
    ensures LocksWhatItStores(qs[i])
  {
    hide Process, Act;
    if i > 0 {
      RunLocksWhatItStores(qs, ops, i - 1);
      StepLocksWhatItStores(qs[i - 1], ops[i - 1]);
    }
  }

  lemma StepLocksWhatItStores(q: Queue, op: Op)
    requires Enabled(q, op) && LocksWhatItStores(q)
    ensures LocksWhatItStores(Step(q, op))
  {
    hide Act, Canonical, Listing;
    if op.PostOp? && Post(q, op.r, op.now).1.Scheduled? {
      StoredOutputs(op.r.action.value, op.r.keys);
    }
  }

  lemma StoredOutputs(action: Action, keys: seq<Uuid>)
    requires Enumerates(keys, Canonical(action))
    ensures Outputs(Listing(Canonical(action), keys)) <= Outputs(action)
  {
    hide Canonical;
    var stored := Listing(Canonical(action), keys);
    forall u | u in Outputs(stored)
      ensures u in Outputs(action)
    {
      var ob :| ob in stored && ob.output == u;
      var i :| 0 <= i < |stored| && stored[i] == ob;
      assert Names(action, keys[i]);
    }
  }
}
