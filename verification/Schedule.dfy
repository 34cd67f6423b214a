// Scheduled channel-mapping activations.
module Schedule {
  // A pending activation locks the outputs it names until it fires or is deleted. One request is
  // one step, so is one pass over the pending ones.

  import opened Text
  import opened ChannelMap
  import opened ChannelActions

  datatype Mode = Immediate | Relative | Absolute | Unknown

  /** A pending activation: when it is due, the stored action, the outputs it names. */
  datatype Pending = Pending(deadline: int, stored: Action, locked: set<Uuid>)

  /** An activation that has fired, with the time it was due and the time of the pass. */
  datatype Firing = Firing(id: nat, deadline: int, at: int)

  datatype Queue = Queue(maps: State, pending: map<nat, Pending>, counter: nat, log: seq<Firing>)

  datatype Response = Done | Scheduled | BadRequest | Locked | Deleted | NotFound

  /** A request as parsed; `keys` is the order in which the output ids sort, `time` what the
      requested time reads as. */
  datatype Request = Request(mode: Mode, action: Option<Action>, keys: seq<Uuid>, time: Option<int>)

  function Outputs(action: Action): (us: set<Uuid>) { set oa | oa in action :: oa.output }

  predicate LockedIn(pending: map<nat, Pending>, u: Uuid) {
    exists id :: id in pending && u in pending[id].locked
  }

  predicate AnyLocked(pending: map<nat, Pending>, action: Action) {
    exists u :: u in Outputs(action) && LockedIn(pending, u)
  }

  function Post(q: Queue, r: Request, now: int): (res: (Queue, Response))
    requires r.action.Some? ==> Enumerates(r.keys, Canonical(r.action.value))
  {
    if r.mode.Unknown? || r.action.None? then (q, BadRequest)
    else if AnyLocked(q.pending, r.action.value) then (q, Locked)
    else
      var action := r.action.value;
      var q1 := q.(counter := q.counter + 1);
      if !Accepts(q.maps, action) then (q1, BadRequest)
      else if r.mode.Immediate? then (q1.(maps := Act(q.maps, action)), Done)
      else if r.time.None? then (q1, BadRequest)
      else
        var deadline := if r.mode.Relative? then now + r.time.value else r.time.value;
        (q1.(pending := q.pending[q1.counter := Pending(deadline, Listing(Canonical(action), r.keys), Outputs(action))]),
         Scheduled)
  }

  function Delete(q: Queue, id: nat): (res: (Queue, Response)) {
    if id in q.pending then (q.(pending := q.pending - {id}), Deleted) else (q, NotFound)
  }

  /** The due ones, in the order in which the pending ones are listed. */
  function Due(pending: map<nat, Pending>, order: seq<nat>, now: int): (ids: seq<nat>)
    requires forall id :: id in order ==> id in pending
    ensures forall id :: id in ids <==> id in order && pending[id].deadline <= now
  {
    if order == [] then []
    else
      var n := |order| - 1;
      assert order == order[..n] + [order[n]];
      var before := Due(pending, order[..n], now);
      if pending[order[n]].deadline <= now then before + [order[n]] else before
  }

  function FireAll(maps: State, pending: map<nat, Pending>, ids: seq<nat>): (r: State)
    requires forall id :: id in ids ==> id in pending
  {
    if ids == [] then maps
    else
      var n := |ids| - 1;
      assert ids[n] in ids && forall id :: id in ids[..n] ==> id in ids;
      Act(FireAll(maps, pending, ids[..n]), pending[ids[n]].stored)
  }

  function Firings(pending: map<nat, Pending>, ids: seq<nat>, now: int): (log: seq<Firing>)
    requires forall id :: id in ids ==> id in pending
    ensures |log| == |ids|
    ensures forall i :: 0 <= i < |ids| ==> log[i] == Firing(ids[i], pending[ids[i]].deadline, now)
  {
    if ids == [] then []
    else
      var n := |ids| - 1;
      assert ids[n] in ids && forall id :: id in ids[..n] ==> id in ids;
      Firings(pending, ids[..n], now) + [Firing(ids[n], pending[ids[n]].deadline, now)]
  }

  /** The pending ids, each once, in some order. */
  predicate Lists(order: seq<nat>, pending: map<nat, Pending>) {
    && (forall id :: id in order ==> id in pending)
    && (forall id :: id in pending ==> id in order)
    && Distinct(order)
  }

  function Process(q: Queue, order: seq<nat>, now: int): (r: Queue)
    requires Lists(order, q.pending)
  {
    var due := Due(q.pending, order, now);
    q.(pending := map id | id in q.pending && q.pending[id].deadline > now :: q.pending[id],
       maps := FireAll(q.maps, q.pending, due),
       log := q.log + Firings(q.pending, due, now))
  }

  // ----- runs -----

  datatype Op = PostOp(r: Request, now: int) | DeleteOp(id: nat) | ProcessOp(order: seq<nat>, now: int)
              | EditOp(maps: State)  // by clients of the session side

  ghost predicate Enabled(q: Queue, op: Op) {
    match op
    case PostOp(r, now) => r.action.Some? ==> Enumerates(r.keys, Canonical(r.action.value))
    case DeleteOp(id) => true
    case ProcessOp(order, now) => Lists(order, q.pending)
    case EditOp(_) => true
  }

  ghost function Step(q: Queue, op: Op): (r: Queue)
    requires Enabled(q, op)
  {
    match op
    case PostOp(r, now) => Post(q, r, now).0
    case DeleteOp(id) => Delete(q, id).0
    case ProcessOp(order, now) => Process(q, order, now)
    case EditOp(maps) => q.(maps := maps)
  }

  ghost predicate Run(qs: seq<Queue>, ops: seq<Op>) {
    && |qs| == |ops| + 1
    && qs[0].pending == map[] && qs[0].counter == 0 && qs[0].log == []
    && forall i :: 0 <= i < |ops| ==> Enabled(qs[i], ops[i]) && qs[i + 1] == Step(qs[i], ops[i])
  }

  ghost predicate Disjoint(pending: map<nat, Pending>) {
    forall a, b :: a in pending && b in pending && a != b ==> pending[a].locked !! pending[b].locked
  }

  /** Outputs are locked by at most one pending activation; numbers are used once; whatever has
      fired was due, fired once, and is no longer pending. */
  ghost predicate Inv(q: Queue) {
    && Disjoint(q.pending)
    && (forall id :: id in q.pending ==> id <= q.counter)
    && (forall i :: 0 <= i < |q.log| ==>
          && q.log[i].id <= q.counter && q.log[i].id !in q.pending && q.log[i].deadline <= q.log[i].at)
    && forall i, j :: 0 <= i < j < |q.log| ==> q.log[i].id != q.log[j].id
  }

  predicate Distinct(ids: seq<nat>) { forall i, j :: 0 <= i < j < |ids| ==> ids[i] != ids[j] }

  lemma {:induction false} DueAreDistinct(pending: map<nat, Pending>, order: seq<nat>, now: int)
    requires (forall id :: id in order ==> id in pending) && Distinct(order)
    ensures Distinct(Due(pending, order, now))
  {
    if order != [] {
      var n := |order| - 1;
      assert order == order[..n] + [order[n]];
      DueAreDistinct(pending, order[..n], now);
      var before := Due(pending, order[..n], now);
      assert order[n] !in order[..n];
      assert order[n] !in before;
      if pending[order[n]].deadline <= now {
        assert Due(pending, order, now) == before + [order[n]];
      }
    }
  }

  lemma ProcessKeeps(q: Queue, order: seq<nat>, now: int)
    requires Inv(q) && Lists(order, q.pending)
    ensures Inv(Process(q, order, now))
  {
    DueAreDistinct(q.pending, order, now);
    var due := Due(q.pending, order, now);
    var n, r := |q.log|, Process(q, order, now);
    forall j | n <= j < |r.log|
      ensures r.log[j] == Firing(due[j - n], q.pending[due[j - n]].deadline, now)
      ensures due[j - n] in q.pending && q.pending[due[j - n]].deadline <= now
    {
      assert due[j - n] in due;
    }
    forall i, j | 0 <= i < j < |r.log|
      ensures r.log[i].id != r.log[j].id
    {
      if i < n <= j {
        assert due[j - n] in q.pending;
      } else if n <= i {
        assert due[i - n] != due[j - n];
      }
    }
  }

  lemma PostKeeps(q: Queue, r: Request, now: int)
    requires Inv(q) && (r.action.Some? ==> Enumerates(r.keys, Canonical(r.action.value)))
    ensures Inv(Post(q, r, now).0)
  {
    var res := Post(q, r, now);
    if res.1.Scheduled? {
      var id, locked := q.counter + 1, Outputs(r.action.value);
      forall other | other in q.pending
        ensures q.pending[other].locked !! locked
      {
        forall u | u in locked
          ensures u !in q.pending[other].locked
        {
          assert !LockedIn(q.pending, u);
        }
      }
    }
  }

  lemma StepKeeps(q: Queue, op: Op)
    requires Inv(q) && Enabled(q, op)
    ensures Inv(Step(q, op))
  {
    hide Post, Process;
    match op {
      case PostOp(r, now) => PostKeeps(q, r, now);
      case DeleteOp(id) =>
      case ProcessOp(order, now) => ProcessKeeps(q, order, now);
      case EditOp(_) =>
    }
  }

  lemma {:induction false} RunKeeps(qs: seq<Queue>, ops: seq<Op>, i: nat)
    requires Run(qs, ops) && i < |qs|
    ensures Inv(qs[i])
  {
    if i > 0 {
      RunKeeps(qs, ops, i - 1);
      StepKeeps(qs[i - 1], ops[i - 1]);
    }
  }

  // ----- when an activation fires -----

  /** One pass fires exactly those that are due, keeping the rest as they are. */
  lemma PassFiresTheDue(q: Queue, order: seq<nat>, now: int, id: nat)
    requires Inv(q) && Lists(order, q.pending) && id in q.pending
    ensures var p, r := q.pending[id], Process(q, order, now);
            && (p.deadline <= now ==> Firing(id, p.deadline, now) in r.log && id !in r.pending)
            && (p.deadline > now ==> id in r.pending && r.pending[id] == p && forall f :: f in r.log ==> f.id != id)
  {
  }

  /** A pending activation stays as it is until it is deleted or a pass finds it due. */
  lemma PendingUntilDue(q: Queue, op: Op, id: nat)
    requires Inv(q) && Enabled(q, op) && id in q.pending
    ensures var p, r := q.pending[id], Step(q, op);
            || (id in r.pending && r.pending[id] == p)
            || op == DeleteOp(id)
            || (op.ProcessOp? && p.deadline <= op.now && Firing(id, p.deadline, op.now) in r.log)
  {
  }

  /** What is gone does not come back, and does not fire: deleted, fired or refused. */
  lemma {:induction false} GoneStaysGone(qs: seq<Queue>, ops: seq<Op>, i: nat, j: nat, id: nat)
    requires Run(qs, ops) && i <= j < |qs| && id <= qs[i].counter && id !in qs[i].pending
    ensures id <= qs[j].counter && id !in qs[j].pending
    ensures qs[i].log <= qs[j].log && forall k :: |qs[i].log| <= k < |qs[j].log| ==> qs[j].log[k].id != id
  {
    if i < j {
      GoneStaysGone(qs, ops, i, j - 1, id);
      OneStepGone(qs[j - 1], ops[j - 1], id);
    }
  }

  lemma OneStepGone(q: Queue, op: Op, id: nat)
    requires Enabled(q, op) && id <= q.counter && id !in q.pending
    ensures var r := Step(q, op);
            && id <= r.counter && id !in r.pending && q.log <= r.log
            && forall k :: |q.log| <= k < |r.log| ==> r.log[k].id != id
  {
  }

  /** At every point of every run: no two pending activations share an output; each one that
      has fired did so once, not before its time, and is no longer pending. */
  lemma FiresOnceInTime(qs: seq<Queue>, ops: seq<Op>, i: nat, j: nat, k: nat)
    requires Run(qs, ops) && i < |qs|
    ensures Disjoint(qs[i].pending)
    ensures j < |qs[i].log| ==> var f := qs[i].log[j]; f.deadline <= f.at && f.id !in qs[i].pending
    ensures j < k < |qs[i].log| ==> qs[i].log[j].id != qs[i].log[k].id
  {
    RunKeeps(qs, ops, i);
  }

  // ----- locked outputs -----

  lemma {:induction false} OtherSendersStay(s: State, items: seq<Item>, id: Id)
    requires forall it :: it in items ==> Fits(s, it) && it.output != Sender(id)
    ensures id in s.sources ==> Apply(s, items).sources[id] == s.sources[id]
  {
    if items != [] {
      OtherSendersStay(s, items[..|items| - 1], id);
      assert items[|items| - 1] in items;
    }
  }

  lemma {:induction false} OtherPlaybacksStay(s: State, items: seq<Item>, ch: Alsa, sink: Id, c: nat)
    requires forall it :: it in items ==> Fits(s, it) && it.output != Playback(ch)
    requires sink in s.sinks && c < |s.sinks[sink]| && s.sinks[sink][c] != ch
    ensures Apply(s, items).sinks[sink][c] != ch
  {
    if items != [] {
      OtherPlaybacksStay(s, items[..|items| - 1], ch, sink, c);
      assert items[|items| - 1] in items;
    }
  }

  lemma ItemsNameTheirOutputs(s: State, action: Action, it: Item)
    requires Accepts(s, action) && it in Items(s, action)
    ensures match it.output
            case Sender(id) => SourceOutput(id) in Outputs(action)
            case Playback(ch) => AlsaOutput(ch) in Outputs(action)
  {
    hide Resolve;
    ItemsComeFrom(s, action, it);
    var oa :| oa in action && AcceptsOutput(s, oa) && From(s, oa, it);
    ItemOutput(s, oa, it);
    assert oa.output in Outputs(action);
  }

  /** A request served at once leaves locked outputs alone: a locked sender keeps its channel
      map, and no sink channel is moved onto a locked playback channel. */
  lemma ImmediateRespectsLocks(q: Queue, r: Request, now: int, holder: nat)
    requires r.mode.Immediate? && (r.action.Some? ==> Enumerates(r.keys, Canonical(r.action.value)))
    requires holder in q.pending
    ensures var maps := Post(q, r, now).0.maps;
            && SameShape(q.maps, maps)
            && (forall id :: SourceOutput(id) in q.pending[holder].locked && id in q.maps.sources ==>
                  maps.sources[id] == q.maps.sources[id])
            && (forall ch, sink, c ::
                  (AlsaOutput(ch) in q.pending[holder].locked && sink in q.maps.sinks
                   && 0 <= c < |q.maps.sinks[sink]| && q.maps.sinks[sink][c] != ch)
                  ==> maps.sinks[sink][c] != ch)
  {
    var res := Post(q, r, now);
    if res.1.Done? {
      var action := r.action.value;
      var items := Items(q.maps, action);
      ItemsFit(q.maps, action);
      forall u | u in q.pending[holder].locked
        ensures u !in Outputs(action)
      {
        assert LockedIn(q.pending, u);
      }
      forall it | it in items
        ensures forall id :: it.output == Sender(id) ==> SourceOutput(id) !in q.pending[holder].locked
        ensures forall ch :: it.output == Playback(ch) ==> AlsaOutput(ch) !in q.pending[holder].locked
      {
        ItemsNameTheirOutputs(q.maps, action, it);
      }
      forall id | SourceOutput(id) in q.pending[holder].locked && id in q.maps.sources
        ensures res.0.maps.sources[id] == q.maps.sources[id]
      {
        OtherSendersStay(q.maps, items, id);
      }
      forall ch, sink, c | AlsaOutput(ch) in q.pending[holder].locked && sink in q.maps.sinks
                           && 0 <= c < |q.maps.sinks[sink]| && q.maps.sinks[sink][c] != ch
        ensures res.0.maps.sinks[sink][c] != ch
      {
        OtherPlaybacksStay(q.maps, items, ch, sink, c);
      }
    }
  }

  lemma OneMoreFires(maps: State, pending: map<nat, Pending>, due: seq<nat>, k: nat, now: int)
    requires (forall id :: id in due ==> id in pending) && k < |due|
    ensures FireAll(maps, pending, due[..k + 1]) == Act(FireAll(maps, pending, due[..k]), pending[due[k]].stored)
    ensures Firings(pending, due[..k + 1], now)
            == Firings(pending, due[..k], now) + [Firing(due[k], pending[due[k]].deadline, now)]
  {
    hide Act;
    assert due[..k + 1][..k] == due[..k];
  }

  lemma OneMoreDue(pending: map<nat, Pending>, order: seq<nat>, i: nat, now: int)
    requires (forall id :: id in order ==> id in pending) && Distinct(order) && i < |order|
    ensures order[i] !in Due(pending, order[..i], now)
    ensures Due(pending, order[..i + 1], now)
            == Due(pending, order[..i], now) + if pending[order[i]].deadline <= now then [order[i]] else []
  {
    assert order[..i + 1][..i] == order[..i];
    assert order[i] !in order[..i];
  }

  lemma NothingDue(pending: map<nat, Pending>, now: int)
    ensures Due(pending, [], now) == []
  {
  }

  lemma NoneFired(maps: State, pending: map<nat, Pending>, now: int)
    ensures FireAll(maps, pending, []) == maps && Firings(pending, [], now) == []
  {
  }

  // ----- the imperative form -----

  class Scheduler {
    const mapper: Mapper
    var pending: map<nat, Pending>
    var counter: nat
    ghost var log: seq<Firing>

    ghost function Now(): (q: Queue)
      reads this, mapper
    {
      Queue(mapper.Now(), pending, counter, log)
    }

    constructor (mapper: Mapper)
      ensures this.mapper == mapper && Now() == Queue(mapper.Now(), map[], 0, [])
    {
      this.mapper := mapper;
      pending, counter, log := map[], 0, [];
    }

    method OutputLocked(u: Uuid) returns (locked: bool)
      ensures locked <==> LockedIn(pending, u)
    {
      var ids := pending.Keys;
      while ids != {}
        invariant ids <= pending.Keys
        invariant forall id :: id in pending && id !in ids ==> u !in pending[id].locked
        decreases |ids|
      {
        var id :| id in ids;
        if u in pending[id].locked {
          return true;
        }
        ids := ids - {id};
      }
      locked := false;
    }

    method AnyOutputLocked(action: Action) returns (locked: bool)
      ensures locked <==> AnyLocked(pending, action)
    {
      var i := 0;
      while i < |action|
        invariant 0 <= i <= |action|
        invariant forall k :: 0 <= k < i ==> !LockedIn(pending, action[k].output)
      {
        locked := OutputLocked(action[i].output);
        if locked {
          assert action[i] in action && action[i].output in Outputs(action);
          return;
        }
        i := i + 1;
      }
      locked := false;
    }

    method PostActivation(r: Request, now: int) returns (response: Response)
      requires r.action.Some? ==> Enumerates(r.keys, Canonical(r.action.value))
      modifies this, mapper
      ensures (Now(), response) == Post(old(Now()), r, now)
    {
      if r.mode.Unknown? || r.action.None? {
        return BadRequest;
      }
      var action := r.action.value;
      var locked := AnyOutputLocked(action);
      if locked {
        return Locked;
      }
      counter := counter + 1;
      if r.mode.Immediate? {
        var ok, _ := mapper.ApplyAction(action, false);
        return if ok then Done else BadRequest;
      }
      var ok, canonical := mapper.ApplyAction(action, true);
      if !ok || r.time.None? {
        return BadRequest;
      }
      var deadline := if r.mode.Relative? then now + r.time.value else r.time.value;
      pending := pending[counter := Pending(deadline, Listing(canonical, r.keys), Outputs(action))];
      response := Scheduled;
    }

    method DeleteActivation(id: nat) returns (response: Response)
      modifies this
      ensures (Now(), response) == Delete(old(Now()), id)
    {
      if id !in pending {
        return NotFound;
      }
      pending := pending - {id};
      response := Deleted;
    }

    /** Takes the due ones out of the pending ones. */
    method TakeDue(order: seq<nat>, now: int) returns (ghost due: seq<nat>, taken: seq<Pending>)
      requires Lists(order, pending)
      modifies this`pending
      ensures due == Due(old(pending), order, now)
      ensures Taken(old(pending), due, taken)
      ensures forall id :: id in pending <==> id in old(pending) && id !in due
      ensures forall id :: id in pending ==> pending[id] == old(pending)[id]
    {
      hide Due;
      due, taken := [], [];
      var i := 0;
      ghost var before := pending;
      assert order[..0] == [];
      NothingDue(before, now);
      while i < |order|
        invariant 0 <= i <= |order|
        invariant due == Due(before, order[..i], now) && Taken(before, due, taken)
        invariant forall id :: id in pending <==> id in before && id !in due
        invariant forall id :: id in pending ==> pending[id] == before[id]
      {
        var id := order[i];
        OneMoreDue(before, order, i, now);
        assert id in order;
        if pending[id].deadline <= now {
          due, taken := due + [id], taken + [pending[id]];
          pending := pending - {id};
        }
        i := i + 1;
      }
      assert order[..i] == order;
    }

    method FireTaken(ghost before: map<nat, Pending>, ghost due: seq<nat>, taken: seq<Pending>, ghost now: int)
      requires Taken(before, due, taken)
      modifies this`log, mapper
      ensures mapper.Now() == FireAll(old(mapper.Now()), before, due)
      ensures log == old(log) + Firings(before, due, now)
    {
      hide Act, Accepts, FireAll, Firings;
      var k := 0;
      NoneFired(mapper.Now(), before, now);
      while k < |taken|
        invariant 0 <= k <= |taken|
        invariant mapper.Now() == FireAll(old(mapper.Now()), before, due[..k])
        invariant log == old(log) + Firings(before, due[..k], now)
      {
        OneMoreFires(old(mapper.Now()), before, due, k, now);
        var _, _ := mapper.ApplyAction(taken[k].stored, false);
        log := log + [Firing(due[k], taken[k].deadline, now)];
        k := k + 1;
      }
      assert due[..k] == due;
    }

    /** Takes the due ones out first, then applies them one after the other. */
    method ProcessDue(order: seq<nat>, now: int)
      requires Lists(order, pending)
      modifies this, mapper
      ensures Now() == Process(old(Now()), order, now)
    {
      ghost var before := pending;
      ghost var due;
      var taken;
      due, taken := TakeDue(order, now);
      FireTaken(before, due, taken, now);
    }
  }

  ghost predicate Taken(pending: map<nat, Pending>, due: seq<nat>, taken: seq<Pending>) {
    && |taken| == |due|
    && (forall id :: id in due ==> id in pending)
    && forall k :: 0 <= k < |due| ==> taken[k] == pending[due[k]]
  }
}
