// Sinks, sources and what they hold.
module SessionTables {
  // Every operation changes several of them, and can fail half way through.

  import opened Arithmetic
  import opened Text

  type Id = uint8
  type Addr = uint32

  const STREAM_ID_MAX := 63
  const PTP_ADDR: Addr := 0xE000_0181

  /** A stored stream. A disabled source has no handles; sinks are always live. */
  datatype Entry = Entry(live: bool, dual: bool, dest0: Addr, dest1: Addr, handle0: nat, handle1: nat)

  /** A parsed request: whether the stream is to be live, whether a second leg is asked for,
      and the two destinations. */
  datatype Request = Request(enabled: bool, wantsDual: bool, dest0: Addr, dest1: Addr)

  /** `handles` are the driver's live streams, `refs0` and `refs1` the multicast counts of the
      two interfaces, `second` whether there is a second interface, `joined` whether the
      worker has joined the PTP group. */
  datatype State = State(sinks: map<Id, Entry>, sources: map<Id, Entry>, handles: set<nat>,
                         refs0: map<Addr, nat>, refs1: map<Addr, nat>, second: bool, joined: bool)

  datatype Code = Success | InvalidId | IdInUse | BadRequest | NameInUse | NotInUse | DriverError

  // ----- multicast reference counts -----

  function Count(refs: map<Addr, nat>, a: Addr): (n: nat) { if a in refs then refs[a] else 0 }

  /** Joining: only the first join of a group asks the kernel, which `accepts` it or not. */
  function Joined(refs: map<Addr, nat>, a: Addr, accepts: bool): (r: map<Addr, nat>) {
    if Count(refs, a) > 0 then refs[a := refs[a] + 1]
    else if accepts then refs[a := 1]
    else refs
  }

  function Left(refs: map<Addr, nat>, a: Addr): (r: map<Addr, nat>) {
    if Count(refs, a) == 0 then refs else refs[a := refs[a] - 1]
  }

  /** The kernel's answers to a first join on the two interfaces. */
  datatype Kernel = Kernel(accepts0: bool, accepts1: bool)

  function Accepts(k: Kernel, leg1: bool): (ok: bool) { if leg1 then k.accepts1 else k.accepts0 }

  function Group(e: Entry, leg1: bool): (a: Addr) { if leg1 then e.dest1 else e.dest0 }

  /** The second leg's group only counts along with a multicast first leg. */
  predicate Joins(e: Entry, leg1: bool) { Multicast(e.dest0) && (leg1 ==> e.dual) }

  function JoinLeg(refs: map<Addr, nat>, e: Entry, leg1: bool, k: Kernel): (r: map<Addr, nat>) {
    if Joins(e, leg1) then Joined(refs, Group(e, leg1), Accepts(k, leg1)) else refs
  }

  function LeaveLeg(refs: map<Addr, nat>, e: Entry, leg1: bool): (r: map<Addr, nat>) {
    if Joins(e, leg1) then Left(refs, Group(e, leg1)) else refs
  }

  function JoinAll(s: State, e: Entry, k: Kernel): (r: State) {
    s.(refs0 := JoinLeg(s.refs0, e, false, k), refs1 := JoinLeg(s.refs1, e, true, k))
  }

  function LeaveAll(s: State, e: Entry): (r: State) {
    s.(refs0 := LeaveLeg(s.refs0, e, false), refs1 := LeaveLeg(s.refs1, e, true))
  }

  // ----- the tables -----

  function Table(s: State, sink: bool): (t: map<Id, Entry>) { if sink then s.sinks else s.sources }

  function Put(s: State, sink: bool, id: Id, e: Entry): (r: State) {
    if sink then s.(sinks := s.sinks[id := e]) else s.(sources := s.sources[id := e])
  }

  function Erase(s: State, sink: bool, id: Id): (r: State) {
    if sink then s.(sinks := s.sinks - {id}) else s.(sources := s.sources - {id})
  }

  function Give(s: State, h: nat): (r: State) { s.(handles := s.handles + {h}) }

  function Take(s: State, h: nat): (r: State) { s.(handles := s.handles - {h}) }

  function HandlesOf(e: Entry): (hs: set<nat>) { {e.handle0} + if e.dual then {e.handle1} else {} }

  /** Gives up the driver streams and groups of an entry that stays in its table for now. */
  function Release(s: State, e: Entry): (r: State) {
    if !e.live then s else LeaveAll(s.(handles := s.handles - HandlesOf(e)), e)
  }

  /** The entry's streams and groups are given up before a replacement is set up. */
  function Prepared(s: State, sink: bool, id: Id): (r: State) {
    if id in Table(s, sink) then Release(s, Table(s, sink)[id]) else s
  }

  predicate Admitted(s: State, sink: bool, id: Id, req: Option<Request>, nameTaken: bool) {
    id <= STREAM_ID_MAX && req.Some? && (id in Table(s, sink) || !nameTaken)
  }

  function AddSink(s: State, id: Id, req: Option<Request>, nameTaken: bool, first: Option<nat>, other: Option<nat>,
                   k: Kernel): (r: State) {
    if !Admitted(s, true, id, req, nameTaken) then s
    else
      var s1 := Prepared(s, true, id);
      if first.None? then Erase(s1, true, id)
      else
        var s2 := Give(s1, first.value);
        if !(req.value.wantsDual && s.second) then
          var e := Entry(true, false, req.value.dest0, req.value.dest1, first.value, 0);
          Put(JoinAll(s2, e, k), true, id, e)
        else if other.None? then Erase(Take(s2, first.value), true, id)
        else
          var e := Entry(true, true, req.value.dest0, req.value.dest1, first.value, other.value);
          Put(JoinAll(Give(s2, other.value), e, k), true, id, e)
  }

  /** `stray` is what the source reads as a handle through the end iterator. */
  function RolledBack(s: State, id: Id, stray: nat): (h: nat) {
    if id in s.sources then s.sources[id].handle0 else stray
  }

  function AddSource(s: State, id: Id, req: Option<Request>, nameTaken: bool, first: Option<nat>, other: Option<nat>,
                     stray: nat, k: Kernel): (r: State) {
    if !Admitted(s, false, id, req, nameTaken) then s
    else
      var s1 := Prepared(s, false, id);
      if !req.value.enabled then Put(s1, false, id, Entry(false, false, req.value.dest0, req.value.dest1, 0, 0))
      else if first.None? then Erase(s1, false, id)
      else
        var s2 := Give(s1, first.value);
        if !(req.value.wantsDual && s.second) then
          var e := Entry(true, false, req.value.dest0, req.value.dest1, first.value, 0);
          Put(JoinAll(s2, e, k), false, id, e)
        else if other.None? then Erase(Take(s2, RolledBack(s, id, stray)), false, id)
        else
          var e := Entry(true, true, req.value.dest0, req.value.dest1, first.value, other.value);
          Put(JoinAll(Give(s2, other.value), e, k), false, id, e)
  }

  /** Removal gives up as soon as the driver does not know a handle. */
  function Remove(s: State, sink: bool, id: Id): (r: State) {
    if id > STREAM_ID_MAX || id !in Table(s, sink) then s
    else
      var e := Table(s, sink)[id];
      if !e.live then Erase(s, sink, id)
      else if e.handle0 !in s.handles then s
      else
        var s1 := Take(s, e.handle0);
        if !e.dual then Erase(LeaveAll(s1, e), sink, id)
        else if e.handle1 !in s1.handles then s1
        else Erase(LeaveAll(Take(s1, e.handle1), e), sink, id)
  }

  /** The worker joins the PTP group on both interfaces when it starts, and leaves at its end. */
  function JoinPtp(s: State, k: Kernel): (r: State) {
    s.(refs0 := Joined(s.refs0, PTP_ADDR, k.accepts0),
       refs1 := if s.second then Joined(s.refs1, PTP_ADDR, k.accepts1) else s.refs1, joined := true)
  }

  function LeavePtp(s: State): (r: State) {
    s.(refs0 := Left(s.refs0, PTP_ADDR), refs1 := if s.second then Left(s.refs1, PTP_ADDR) else s.refs1,
       joined := false)
  }

  // ----- what the reference counts are -----

  predicate Uses(e: Entry, leg1: bool, a: Addr) {
    && e.live && Multicast(e.dest0)
    && if leg1 then e.dual && e.dest1 == a && Multicast(a) else e.dest0 == a
  }

  function Users(t: map<Id, Entry>, leg1: bool, a: Addr): (ids: set<Id>) {
    set id | id in t && Uses(t[id], leg1, a)
  }

  function Ptp(s: State, leg1: bool, a: Addr): (n: nat) {
    if s.joined && a == PTP_ADDR && (leg1 ==> s.second) then 1 else 0
  }

  function Refs(s: State, leg1: bool): (refs: map<Addr, nat>) { if leg1 then s.refs1 else s.refs0 }

  /** Every group is counted once per stored live stream that uses it, and once for PTP. */
  ghost predicate Counted(s: State) {
    forall leg1: bool, a: Addr :: CountedAt(s, leg1, a)
  }

  predicate CountedAt(s: State, leg1: bool, a: Addr) {
    Count(Refs(s, leg1), a) == |Users(s.sinks, leg1, a)| + |Users(s.sources, leg1, a)| + Ptp(s, leg1, a)
  }

  lemma UsersPut(t: map<Id, Entry>, id: Id, e: Entry, leg1: bool, a: Addr)
    requires id !in t
    ensures |Users(t[id := e], leg1, a)| == |Users(t, leg1, a)| + AsCount(Uses(e, leg1, a))
  {
    if Uses(e, leg1, a) {
      assert Users(t[id := e], leg1, a) == Users(t, leg1, a) + {id};
    } else {
      assert Users(t[id := e], leg1, a) == Users(t, leg1, a);
    }
  }

  lemma UsersErase(t: map<Id, Entry>, id: Id, leg1: bool, a: Addr)
    requires id in t
    ensures |Users(t, leg1, a)| == |Users(t - {id}, leg1, a)| + AsCount(Uses(t[id], leg1, a))
  {
    assert t == (t - {id})[id := t[id]];
    UsersPut(t - {id}, id, t[id], leg1, a);
  }

  lemma OnlyGroupsAreCounted(s: State, leg1: bool, a: Addr)
    requires CountedAt(s, leg1, a) && !Multicast(a)
    ensures Count(Refs(s, leg1), a) == 0
  {
  }

  /** A first join is accepted, and of what is no group refused. */
  predicate JoinIsRight(refs: map<Addr, nat>, e: Entry, leg1: bool, k: Kernel) {
    Joins(e, leg1) && Count(refs, Group(e, leg1)) == 0 ==> (Accepts(k, leg1) <==> Multicast(Group(e, leg1)))
  }

  lemma JoiningCounts(refs: map<Addr, nat>, e: Entry, leg1: bool, k: Kernel, a: Addr)
    requires e.live && (!Multicast(Group(e, leg1)) ==> Count(refs, Group(e, leg1)) == 0)
    ensures JoinIsRight(refs, e, leg1, k) || a != Group(e, leg1) <==>
            Count(JoinLeg(refs, e, leg1, k), a) == Count(refs, a) + AsCount(Uses(e, leg1, a))
  {
  }

  lemma LeavingCounts(refs: map<Addr, nat>, e: Entry, leg1: bool, a: Addr)
    requires e.live && (!Multicast(a) ==> Count(refs, a) == 0)
    requires Uses(e, leg1, a) ==> Count(refs, a) > 0
    ensures Count(LeaveLeg(refs, e, leg1), a) == Count(refs, a) - AsCount(Uses(e, leg1, a))
  {
  }

  /** Giving an entry's groups up along with the entry keeps the counts right. */
  lemma DropCounts(s: State, sink: bool, id: Id, hs: set<nat>)
    requires Counted(s) && id in Table(s, sink)
    ensures var e := Table(s, sink)[id];
            Counted(Erase(if e.live then LeaveAll(s, e) else s, sink, id).(handles := hs))
  {
    hide Users, LeaveLeg, Count;
    var e := Table(s, sink)[id];
    var r := Erase(if e.live then LeaveAll(s, e) else s, sink, id).(handles := hs);
    forall leg1: bool, a: Addr
      ensures CountedAt(r, leg1, a)
    {
      assert CountedAt(s, leg1, a);
      UsersErase(Table(s, sink), id, leg1, a);
      if !Multicast(a) {
        OnlyGroupsAreCounted(s, leg1, a);
      }
      if e.live {
        LeavingCounts(Refs(s, leg1), e, leg1, a);
      }
    }
  }

  /** A stored entry, with its groups joined if it is live. */
  function Stored(s: State, sink: bool, id: Id, e: Entry, k: Kernel): (r: State) {
    Put(if e.live then JoinAll(s, e, k) else s, sink, id, e)
  }

  predicate JoinsAreRight(s: State, e: Entry, k: Kernel) {
    e.live ==> forall leg1: bool :: JoinIsRight(Refs(s, leg1), e, leg1, k)
  }

  lemma PutCountsAt(s: State, sink: bool, id: Id, e: Entry, k: Kernel, leg1: bool, a: Addr)
    requires Counted(s) && id !in Table(s, sink)
    ensures CountedAt(Stored(s, sink, id, e, k), leg1, a) <==>
            !e.live || JoinIsRight(Refs(s, leg1), e, leg1, k) || a != Group(e, leg1)
  {
    hide Users, JoinLeg, Count, Joins, JoinIsRight;
    assert CountedAt(s, leg1, a) && CountedAt(s, leg1, Group(e, leg1));
    UsersPut(Table(s, sink), id, e, leg1, a);
    if !Multicast(Group(e, leg1)) {
      OnlyGroupsAreCounted(s, leg1, Group(e, leg1));
    }
    if e.live {
      JoiningCounts(Refs(s, leg1), e, leg1, k, a);
    }
  }

  /** The counts stay right exactly when the kernel answers the first joins as it should. */
  lemma PutCounts(s: State, sink: bool, id: Id, e: Entry, k: Kernel)
    requires Counted(s) && id !in Table(s, sink)
    ensures Counted(Stored(s, sink, id, e, k)) <==> JoinsAreRight(s, e, k)
  {
    hide Stored, CountedAt, JoinIsRight;
    forall leg1: bool, a: Addr
      ensures CountedAt(Stored(s, sink, id, e, k), leg1, a) <==>
              !e.live || JoinIsRight(Refs(s, leg1), e, leg1, k) || a != Group(e, leg1)
    {
      PutCountsAt(s, sink, id, e, k, leg1, a);
    }
    if Counted(Stored(s, sink, id, e, k)) && e.live {
      forall leg1: bool
        ensures JoinIsRight(Refs(s, leg1), e, leg1, k)
      {
        assert CountedAt(Stored(s, sink, id, e, k), leg1, Group(e, leg1));
      }
    }
  }

  // ----- who holds the driver's handles -----

  datatype Slot = Slot(sink: bool, id: Id, leg1: bool)

  /** The handle stored in a slot, 0 for none. */
  function HandleAt(s: State, slot: Slot): (h: nat) {
    var t := Table(s, slot.sink);
    if slot.id !in t then 0 else if slot.leg1 then t[slot.id].handle1 else t[slot.id].handle0
  }

  ghost predicate Held(s: State, h: nat) { exists slot :: HandleAt(s, slot) == h }

  predicate WellFormed(e: Entry) {
    (e.live <==> e.handle0 != 0) && (e.dual <==> e.handle1 != 0) && (e.dual ==> e.live)
  }

  predicate Storable(sink: bool, id: Id, e: Entry) { id <= STREAM_ID_MAX && WellFormed(e) && (sink ==> e.live) }

  predicate GoodAt(s: State, sink: bool, id: Id) { id in Table(s, sink) ==> Storable(sink, id, Table(s, sink)[id]) }

  /** The driver's live streams are exactly the stored handles, each stored once, and the leaked
      ones, which are stored nowhere; a second handle is stored exactly for the streams with
      two legs. */
  ghost predicate OwnedBut(s: State, leaked: set<nat>) {
    && (forall sink: bool, id: Id :: GoodAt(s, sink, id))
    && (forall slot :: HandleAt(s, slot) != 0 ==> HandleAt(s, slot) in s.handles && HandleAt(s, slot) !in leaked)
    && (forall a, b :: HandleAt(s, a) != 0 && HandleAt(s, a) == HandleAt(s, b) ==> a == b)
    && (forall h :: h in s.handles ==> h != 0 && (h in leaked || Held(s, h)))
    && leaked <= s.handles
  }

  /** The driver's live streams are exactly the stored ones. */
  ghost predicate Owned(s: State) { OwnedBut(s, {}) }

  /** An entry given up and erased, if there is one. */
  function Cleared(s: State, sink: bool, id: Id): (r: State) { Erase(Prepared(s, sink, id), sink, id) }

  lemma ClearedSlots(s: State, sink: bool, id: Id, slot: Slot)
    ensures HandleAt(Cleared(s, sink, id), slot) ==
            if slot.sink == sink && slot.id == id then 0 else HandleAt(s, slot)
    ensures GoodAt(s, slot.sink, slot.id) ==> GoodAt(Cleared(s, sink, id), slot.sink, slot.id)
  {
  }

  lemma ClearedHandles(s: State, sink: bool, id: Id)
    requires GoodAt(s, sink, id) && 0 !in s.handles
    ensures Cleared(s, sink, id).handles ==
            s.handles - {HandleAt(s, Slot(sink, id, false)), HandleAt(s, Slot(sink, id, true))}
  {
  }

  lemma ClearOwned(s: State, sink: bool, id: Id, leaked: set<nat>)
    requires OwnedBut(s, leaked)
    ensures OwnedBut(Cleared(s, sink, id), leaked)
  {
    hide Cleared, HandleAt, GoodAt;
    var r := Cleared(s, sink, id);
    assert GoodAt(s, sink, id);
    ClearedHandles(s, sink, id);
    forall slot: Slot
      ensures HandleAt(r, slot) == if slot.sink == sink && slot.id == id then 0 else HandleAt(s, slot)
      ensures GoodAt(r, slot.sink, slot.id)
    {
      assert GoodAt(s, slot.sink, slot.id);
      ClearedSlots(s, sink, id, slot);
    }
    forall at: bool, i: Id
      ensures GoodAt(r, at, i)
    {
      assert GoodAt(r, Slot(at, i, false).sink, Slot(at, i, false).id);
    }
    forall h | h in r.handles
      ensures h != 0 && (h in leaked || Held(r, h))
    {
      if h !in leaked {
        var slot :| HandleAt(s, slot) == h;
        assert HandleAt(r, slot) == h;
      }
    }
  }

  function LiveHandles(e: Entry): (hs: set<nat>) { if e.live then HandlesOf(e) else {} }

  /** The driver answers with handles that are not zero and not in use. */
  predicate FreshFor(e: Entry, handles: set<nat>) {
    && WellFormed(e) && LiveHandles(e) !! handles && (e.dual ==> e.handle0 != e.handle1)
  }

  lemma StoredSlots(s: State, sink: bool, id: Id, e: Entry, k: Kernel, slot: Slot, hs: set<nat>)
    requires Storable(sink, id, e)
    ensures HandleAt(Stored(s, sink, id, e, k).(handles := hs), slot) ==
            if slot.sink == sink && slot.id == id then (if slot.leg1 then e.handle1 else e.handle0)
            else HandleAt(s, slot)
    ensures GoodAt(s, slot.sink, slot.id) ==> GoodAt(Stored(s, sink, id, e, k).(handles := hs), slot.sink, slot.id)
  {
  }

  lemma StoreOwned(s: State, sink: bool, id: Id, e: Entry, k: Kernel, leaked: set<nat>)
    requires OwnedBut(s, leaked) && id !in Table(s, sink) && FreshFor(e, s.handles) && Storable(sink, id, e)
    ensures OwnedBut(Stored(s, sink, id, e, k).(handles := s.handles + LiveHandles(e)), leaked)
  {
    hide Stored, HandleAt, GoodAt;
    var r := Stored(s, sink, id, e, k).(handles := s.handles + LiveHandles(e));
    forall slot: Slot
      ensures HandleAt(r, slot) ==
              if slot.sink == sink && slot.id == id then (if slot.leg1 then e.handle1 else e.handle0)
              else HandleAt(s, slot)
      ensures GoodAt(r, slot.sink, slot.id)
    {
      assert GoodAt(s, slot.sink, slot.id);
      StoredSlots(s, sink, id, e, k, slot, r.handles);
    }
    forall at: bool, i: Id
      ensures GoodAt(r, at, i)
    {
      assert GoodAt(r, Slot(at, i, false).sink, Slot(at, i, false).id);
    }
    forall h | h in r.handles
      ensures h != 0 && (h in leaked || Held(r, h))
    {
      if h in s.handles && h !in leaked {
        var slot :| HandleAt(s, slot) == h;
        EmptySlots(s, slot, sink, id);
        assert HandleAt(r, slot) == h;
      } else if h !in s.handles {
        assert HandleAt(r, Slot(sink, id, h != e.handle0)) == h;
      }
    }
  }

  lemma EmptySlots(s: State, slot: Slot, sink: bool, id: Id)
    requires id !in Table(s, sink)
    ensures slot.sink == sink && slot.id == id ==> HandleAt(s, slot) == 0
  {
  }

  // ----- every operation -----

  datatype Op =
    | SinkAdd(id: Id, req: Option<Request>, nameTaken: bool, first: Option<nat>, other: Option<nat>, k: Kernel)
    | SourceAdd(id: Id, req: Option<Request>, nameTaken: bool, first: Option<nat>, other: Option<nat>, stray: nat,
                k: Kernel)
    | Removal(sink: bool, id: Id)
    | WorkerStart(k: Kernel)
    | WorkerEnd

  function Step(s: State, op: Op): (r: State) {
    match op
    case SinkAdd(id, req, nameTaken, first, other, k) => AddSink(s, id, req, nameTaken, first, other, k)
    case SourceAdd(id, req, nameTaken, first, other, stray, k) => AddSource(s, id, req, nameTaken, first, other, stray, k)
    case Removal(sink, id) => Remove(s, sink, id)
    case WorkerStart(k) => JoinPtp(s, k)
    case WorkerEnd => LeavePtp(s)
  }

  /** A handle the driver may answer with. */
  predicate Fresh(h: Option<nat>, handles: set<nat>) { h.Some? ==> h.value != 0 && h.value !in handles }

  predicate Answers(s: State, sink: bool, id: Id, first: Option<nat>, other: Option<nat>) {
    var handles := Prepared(s, sink, id).handles;
    Fresh(first, handles) && Fresh(other, handles + if first.Some? then {first.value} else {})
  }

  /** What the driver promises, and the worker runs once. */
  predicate Allowed(s: State, op: Op) {
    match op
    case SinkAdd(id, req, nameTaken, first, other, _) => Answers(s, true, id, first, other)
    case SourceAdd(id, req, nameTaken, first, other, stray, _) => Answers(s, false, id, first, other)
    case Removal(sink, id) => true
    case WorkerStart(_) => !s.joined
    case WorkerEnd => s.joined
  }

  /** A source whose second leg the driver refuses: the first leg is to be rolled back. */
  predicate SecondLegRefused(s: State, op: Op) {
    && op.SourceAdd? && Admitted(s, false, op.id, op.req, op.nameTaken)
    && op.req.value.enabled && op.first.Some? && op.req.value.wantsDual && s.second && op.other.None?
  }

  /** The rollback gives up another handle than the one the driver has just answered with. */
  predicate RollbackMisses(s: State, op: Op) {
    SecondLegRefused(s, op) && RolledBack(s, op.id, op.stray) != op.first.value
  }

  /** The entry a request leads to, if the driver provides what it needs. */
  function NewEntry(s: State, req: Request, live: bool, first: Option<nat>, other: Option<nat>): (e: Option<Entry>) {
    if !live then Some(Entry(false, false, req.dest0, req.dest1, 0, 0))
    else if first.None? then None
    else if !(req.wantsDual && s.second) then Some(Entry(true, false, req.dest0, req.dest1, first.value, 0))
    else if other.None? then None
    else Some(Entry(true, true, req.dest0, req.dest1, first.value, other.value))
  }

  /** Replacing an entry: the old one is gone whatever happens. */
  function Replaced(s: State, sink: bool, id: Id, e: Option<Entry>, k: Kernel): (r: State) {
    var c := Cleared(s, sink, id);
    if e.None? then c else Stored(c, sink, id, e.value, k).(handles := c.handles + LiveHandles(e.value))
  }

  /** Storing over an entry is storing where it was erased. */
  lemma StoringOver(s: State, sink: bool, id: Id, e: Entry, k: Kernel, hs: set<nat>)
    ensures Put(if e.live then JoinAll(s.(handles := hs), e, k) else s.(handles := hs), sink, id, e)
            == Stored(Erase(s, sink, id), sink, id, e, k).(handles := hs)
  {
  }

  /** The handles are the fresh ones on top of those still in use. */
  lemma GivenHandles(hs: set<nat>, e: Entry)
    requires e.live
    ensures e.dual ==> hs + {e.handle0} + {e.handle1} == hs + LiveHandles(e)
    ensures !e.dual ==> hs + {e.handle0} == hs + LiveHandles(e)
  {
  }

  lemma AddSinkReplaces(s: State, id: Id, req: Option<Request>, nameTaken: bool,
                                           first: Option<nat>, other: Option<nat>, k: Kernel)
    requires Admitted(s, true, id, req, nameTaken) && Answers(s, true, id, first, other)
    ensures AddSink(s, id, req, nameTaken, first, other, k)
            == Replaced(s, true, id, NewEntry(s, req.value, true, first, other), k)
  {
    hide JoinAll, Stored, Prepared, Put, LiveHandles;
    var s1 := Prepared(s, true, id);
    PreparedKeeps(s, true, id);
    if first.Some? {
      if req.value.wantsDual && s.second && other.None? {
        assert s1.handles + {first.value} - {first.value} == s1.handles;
      } else {
        var e := NewEntry(s, req.value, true, first, other).value;
        GivenHandles(s1.handles, e);
        StoringOver(s1, true, id, e, k, s1.handles + LiveHandles(e));
      }
    }
  }

  lemma PreparedKeeps(s: State, sink: bool, id: Id)
    ensures var s1 := Prepared(s, sink, id);
            s1.sinks == s.sinks && s1.sources == s.sources && s1.second == s.second && s1.joined == s.joined
  {
  }

  lemma AddDisabledReplaces(s: State, id: Id, req: Request, nameTaken: bool,
                                               first: Option<nat>, other: Option<nat>, stray: nat, k: Kernel)
    requires Admitted(s, false, id, Some(req), nameTaken) && !req.enabled
    ensures AddSource(s, id, Some(req), nameTaken, first, other, stray, k)
            == Replaced(s, false, id, NewEntry(s, req, false, first, other), k)
  {
  }

  lemma AddSourceReplaces(s: State, id: Id, req: Option<Request>, nameTaken: bool,
                                             first: Option<nat>, other: Option<nat>, stray: nat, k: Kernel)
    requires Admitted(s, false, id, req, nameTaken)
    ensures var c := Cleared(s, false, id);
            AddSource(s, id, req, nameTaken, first, other, stray, k)
            == if SecondLegRefused(s, SourceAdd(id, req, nameTaken, first, other, stray, k))
               then c.(handles := c.handles + {first.value} - {RolledBack(s, id, stray)})
               else Replaced(s, false, id, NewEntry(s, req.value, req.value.enabled, first, other), k)
  {
    hide JoinAll, Stored, Prepared, Put, LiveHandles, RolledBack;
    if !req.value.enabled {
      AddDisabledReplaces(s, id, req.value, nameTaken, first, other, stray, k);
    } else {
      var s1 := Prepared(s, false, id);
      PreparedKeeps(s, false, id);
      if first.Some? && !(req.value.wantsDual && s.second && other.None?) {
        var e := NewEntry(s, req.value, true, first, other).value;
        GivenHandles(s1.handles, e);
        StoringOver(s1, false, id, e, k, s1.handles + LiveHandles(e));
      }
    }
  }

  // ----- conservation -----

  lemma NewEntryFresh(s: State, sink: bool, id: Id, req: Request, live: bool,
                                         first: Option<nat>, other: Option<nat>)
    requires Answers(s, sink, id, first, other) && id <= STREAM_ID_MAX && (sink ==> live)
    ensures var e := NewEntry(s, req, live, first, other);
            e.Some? ==> FreshFor(e.value, Cleared(s, sink, id).handles) && Storable(sink, id, e.value)
  {
  }

  predicate ReplaceJoinsRight(s: State, sink: bool, id: Id, e: Option<Entry>, k: Kernel) {
    e.Some? ==> JoinsAreRight(Cleared(s, sink, id), e.value, k)
  }

  lemma ReplaceCounts(s: State, sink: bool, id: Id, e: Option<Entry>, k: Kernel)
    requires Counted(s)
    ensures Counted(Replaced(s, sink, id, e, k)) <==> ReplaceJoinsRight(s, sink, id, e, k)
  {
    hide Cleared, Stored, Counted, LiveHandles, JoinsAreRight;
    var c := Cleared(s, sink, id);
    ClearCounts(s, sink, id);
    if e.Some? {
      ClearErases(s, sink, id);
      PutCounts(c, sink, id, e.value, k);
      CountsIgnoreHandles(Stored(c, sink, id, e.value, k), c.handles + LiveHandles(e.value));
    }
  }

  lemma ReplaceKeeps(s: State, sink: bool, id: Id, e: Option<Entry>, k: Kernel, leaked: set<nat>)
    requires OwnedBut(s, leaked)
    requires e.Some? ==> FreshFor(e.value, Cleared(s, sink, id).handles) && Storable(sink, id, e.value)
    ensures OwnedBut(Replaced(s, sink, id, e, k), leaked)
  {
    hide Cleared, Stored, OwnedBut, FreshFor, LiveHandles, Storable;
    ClearOwned(s, sink, id, leaked);
    if e.Some? {
      ClearErases(s, sink, id);
      StoreOwned(Cleared(s, sink, id), sink, id, e.value, k, leaked);
    }
  }

  lemma ClearErases(s: State, sink: bool, id: Id)
    ensures id !in Table(Cleared(s, sink, id), sink)
  {
  }

  lemma CountsIgnoreHandles(s: State, hs: set<nat>)
    ensures Counted(s.(handles := hs)) <==> Counted(s)
  {
    forall leg1: bool, a: Addr
      ensures CountedAt(s.(handles := hs), leg1, a) <==> CountedAt(s, leg1, a)
    {
    }
  }

  lemma ClearCounts(s: State, sink: bool, id: Id)
    requires Counted(s)
    ensures Counted(Cleared(s, sink, id))
  {
    hide Counted, LeaveLeg;
    if id in Table(s, sink) {
      DropCounts(s, sink, id, Prepared(s, sink, id).handles);
    } else {
      assert Cleared(s, sink, id) == s;
    }
  }

  /** Removing an entry whose handles the driver knows goes through. */
  lemma RemoveGoesThrough(s: State, sink: bool, id: Id)
    requires id in Table(s, sink) && id <= STREAM_ID_MAX
    requires var e := Table(s, sink)[id];
             && WellFormed(e) && (e.dual ==> e.handle0 != e.handle1) && LiveHandles(e) <= s.handles
    ensures Remove(s, sink, id) == Cleared(s, sink, id)
  {
  }

  /** Tables that own their handles can be emptied. */
  lemma RemoveClears(s: State, sink: bool, id: Id, leaked: set<nat>)
    requires OwnedBut(s, leaked) && id <= STREAM_ID_MAX
    ensures Remove(s, sink, id) == Cleared(s, sink, id)
  {
    hide Remove, Cleared;
    if id in Table(s, sink) {
      assert GoodAt(s, sink, id);
      var e, at0, at1 := Table(s, sink)[id], Slot(sink, id, false), Slot(sink, id, true);
      assert HandleAt(s, at0) == e.handle0 && HandleAt(s, at1) == e.handle1;
      RemoveGoesThrough(s, sink, id);
    } else {
      NothingToRemove(s, sink, id);
    }
  }

  lemma NothingToRemove(s: State, sink: bool, id: Id)
    requires id !in Table(s, sink)
    ensures Remove(s, sink, id) == s == Cleared(s, sink, id)
  {
  }

  lemma LeavingIgnoresHandles(s: State, hs: set<nat>, e: Entry, sink: bool, id: Id)
    ensures Erase(LeaveAll(s.(handles := hs), e), sink, id) == Erase(LeaveAll(s, e), sink, id).(handles := hs)
    ensures Erase(s, sink, id) == Erase(s, sink, id).(handles := s.handles)
  {
  }

  lemma RemoveShape(s: State, sink: bool, id: Id)
    ensures var r := Remove(s, sink, id);
            || r == s.(handles := r.handles)
            || (id in Table(s, sink)
                && r == Erase(if Table(s, sink)[id].live then LeaveAll(s, Table(s, sink)[id]) else s, sink, id)
                        .(handles := r.handles))
  {
    hide LeaveAll, Erase, Table;
    if id in Table(s, sink) {
      var e := Table(s, sink)[id];
      LeavingIgnoresHandles(s, s.handles - {e.handle0}, e, sink, id);
      LeavingIgnoresHandles(s, s.handles - {e.handle0} - {e.handle1}, e, sink, id);
    }
  }

  lemma RemoveCounts(s: State, sink: bool, id: Id)
    requires Counted(s)
    ensures Counted(Remove(s, sink, id))
  {
    hide Counted, Remove, LeaveAll, Erase;
    var r := Remove(s, sink, id);
    RemoveShape(s, sink, id);
    CountsIgnoreHandles(s, r.handles);
    if id in Table(s, sink) {
      DropCounts(s, sink, id, r.handles);
    }
  }

  /** The PTP group is counted, or the kernel accepts its first join. */
  predicate PtpJoinsRight(s: State, k: Kernel) {
    && (Count(s.refs0, PTP_ADDR) > 0 || k.accepts0)
    && (s.second ==> Count(s.refs1, PTP_ADDR) > 0 || k.accepts1)
  }

  lemma PtpCountsAt(s: State, k: Kernel, leg1: bool, a: Addr)
    requires Counted(s)
    ensures !s.joined ==> (CountedAt(JoinPtp(s, k), leg1, a) <==>
              a != PTP_ADDR || (leg1 && !s.second) || Count(Refs(s, leg1), PTP_ADDR) > 0 || Accepts(k, leg1))
    ensures s.joined ==> CountedAt(LeavePtp(s), leg1, a)
  {
    hide Users;
    assert CountedAt(s, leg1, a);
  }

  lemma PtpCounts(s: State, k: Kernel)
    requires Counted(s)
    ensures !s.joined ==> (Counted(JoinPtp(s, k)) <==> PtpJoinsRight(s, k))
    ensures s.joined ==> Counted(LeavePtp(s))
  {
    hide CountedAt, JoinPtp, LeavePtp;
    forall leg1: bool, a: Addr
      ensures !s.joined ==> (CountedAt(JoinPtp(s, k), leg1, a) <==>
                a != PTP_ADDR || (leg1 && !s.second) || Count(Refs(s, leg1), PTP_ADDR) > 0 || Accepts(k, leg1))
      ensures s.joined ==> CountedAt(LeavePtp(s), leg1, a)
    {
      PtpCountsAt(s, k, leg1, a);
    }
    if !s.joined && Counted(JoinPtp(s, k)) {
      assert CountedAt(JoinPtp(s, k), false, PTP_ADDR) && CountedAt(JoinPtp(s, k), true, PTP_ADDR);
    }
  }

  /** The kernel answers the first joins of an operation as it should. */
  predicate KernelIsRight(s: State, op: Op) {
    match op
    case SinkAdd(id, req, nameTaken, first, other, k) =>
      Admitted(s, true, id, req, nameTaken) ==> ReplaceJoinsRight(s, true, id, NewEntry(s, req.value, true, first, other), k)
    case SourceAdd(id, req, nameTaken, first, other, _, k) =>
      Admitted(s, false, id, req, nameTaken) ==>
        ReplaceJoinsRight(s, false, id, NewEntry(s, req.value, req.value.enabled, first, other), k)
    case WorkerStart(k) => PtpJoinsRight(s, k)
    case _ => true
  }

  /** Whatever the driver does, the multicast counts stay right, exactly as long as the kernel
      refuses no first join of a group. */
  lemma StepCounts(s: State, op: Op)
    requires Counted(s) && Allowed(s, op)
    ensures Counted(Step(s, op)) <==> KernelIsRight(s, op)
  {
    hide Counted, AddSink, AddSource, Remove, JoinPtp, LeavePtp, Cleared, Replaced, JoinsAreRight;
    match op {
      case SinkAdd(id, req, nameTaken, first, other, k) =>
        if Admitted(s, true, id, req, nameTaken) {
          AddSinkReplaces(s, id, req, nameTaken, first, other, k);
          ReplaceCounts(s, true, id, NewEntry(s, req.value, true, first, other), k);
        } else {
          NotAdmitted(s, op);
        }
      case SourceAdd(id, req, nameTaken, first, other, stray, k) =>
        if Admitted(s, false, id, req, nameTaken) {
          AddSourceReplaces(s, id, req, nameTaken, first, other, stray, k);
          ReplaceCounts(s, false, id, NewEntry(s, req.value, req.value.enabled, first, other), k);
          ClearCounts(s, false, id);
          if SecondLegRefused(s, op) {
            CountsIgnoreHandles(Cleared(s, false, id), Step(s, op).handles);
          }
        } else {
          NotAdmitted(s, op);
        }
      case Removal(sink, id) => RemoveCounts(s, sink, id);
      case WorkerStart(k) => PtpCounts(s, k);
      case WorkerEnd => PtpCounts(s, Kernel(true, true));
    }
  }

  lemma NotAdmitted(s: State, op: Op)
    ensures op.SinkAdd? && !Admitted(s, true, op.id, op.req, op.nameTaken) ==> Step(s, op) == s
    ensures op.SourceAdd? && !Admitted(s, false, op.id, op.req, op.nameTaken) ==> Step(s, op) == s
  {
  }

  /** The handle that is rolled back is a stored one, of another stream. */
  ghost predicate StrayHits(s: State, op: Op) {
    SecondLegRefused(s, op) && op.id !in s.sources && op.stray != 0 && Held(s, op.stray)
  }

  /** What is leaked after an operation: the first leg's stream, unless it is what is rolled
      back; and a rollback that hits a leaked stream ends it. */
  function LeakedBy(s: State, op: Op, leaked: set<nat>): (r: set<nat>) {
    if SecondLegRefused(s, op) then leaked + {op.first.value} - {RolledBack(s, op.id, op.stray)} else leaked
  }

  lemma RollbackSlots(s: State, op: Op, leaked: set<nat>)
    requires OwnedBut(s, leaked) && Allowed(s, op) && SecondLegRefused(s, op)
    ensures var c, rolled := Cleared(s, false, op.id), RolledBack(s, op.id, op.stray);
            && Step(s, op) == c.(handles := c.handles + {op.first.value} - {rolled})
            && OwnedBut(c, leaked) && op.first.value != 0 && op.first.value !in c.handles
            && (rolled != 0 && Held(c, rolled) <==> StrayHits(s, op))
  {
    hide AddSource, Cleared, HandleAt, GoodAt;
    var id := op.id;
    var c := Cleared(s, false, id);
    AddSourceReplaces(s, id, op.req, op.nameTaken, op.first, op.other, op.stray, op.k);
    ClearOwned(s, false, id, leaked);
    ClearedKeepsHandles(s, false, id);
    forall slot: Slot
      ensures HandleAt(c, slot) == if !slot.sink && slot.id == id then 0 else HandleAt(s, slot)
    {
      ClearedSlots(s, false, id, slot);
    }
    if id in s.sources {
      FirstHandle(s, id);
    } else {
      forall slot: Slot
        ensures !slot.sink && slot.id == id ==> HandleAt(s, slot) == 0
      {
        EmptySlots(s, slot, false, id);
      }
      if op.stray != 0 && Held(s, op.stray) {
        var slot :| HandleAt(s, slot) == op.stray;
        assert HandleAt(c, slot) == op.stray;
      }
    }
  }

  lemma FirstHandle(s: State, id: Id)
    requires id in s.sources
    ensures HandleAt(s, Slot(false, id, false)) == s.sources[id].handle0
  {
  }

  lemma RollbackOwned(s: State, op: Op, leaked: set<nat>)
    requires OwnedBut(s, leaked) && Allowed(s, op) && SecondLegRefused(s, op)
    ensures OwnedBut(Step(s, op), LeakedBy(s, op, leaked)) <==> !StrayHits(s, op)
  {
    hide Step, Cleared, RolledBack, HandleAt, StrayHits;
    RollbackSlots(s, op, leaked);
    var c, r := Cleared(s, false, op.id), Step(s, op);
    var h, rolled := op.first.value, RolledBack(s, op.id, op.stray);
    forall slot: Slot
      ensures HandleAt(r, slot) == HandleAt(c, slot)
    {
      SlotsIgnoreHandles(c, r.handles, slot);
    }
    GoodIgnoresHandles(c, r.handles);
    if StrayHits(s, op) {
      var slot :| HandleAt(c, slot) == rolled;
      assert HandleAt(r, slot) == rolled && rolled !in r.handles;
    } else {
      forall x | x in r.handles && x !in LeakedBy(s, op, leaked)
        ensures x != 0 && Held(r, x)
      {
        var slot :| HandleAt(c, slot) == x;
        assert HandleAt(r, slot) == x;
      }
    }
  }

  lemma GoodIgnoresHandles(s: State, hs: set<nat>)
    ensures forall sink: bool, id: Id :: GoodAt(s.(handles := hs), sink, id) <==> GoodAt(s, sink, id)
  {
  }

  lemma ClearedKeepsHandles(s: State, sink: bool, id: Id)
    ensures Cleared(s, sink, id).handles == Prepared(s, sink, id).handles
  {
  }

  lemma SlotsIgnoreHandles(s: State, hs: set<nat>, slot: Slot)
    ensures HandleAt(s.(handles := hs), slot) == HandleAt(s, slot)
  {
  }

  lemma PtpOwned(s: State, k: Kernel, leaked: set<nat>)
    requires OwnedBut(s, leaked)
    ensures OwnedBut(JoinPtp(s, k), leaked) && OwnedBut(LeavePtp(s), leaked)
  {
    hide Joined, Left, GoodAt, HandleAt;
    OwnedIgnoresRefs(s, JoinPtp(s, k), leaked);
    OwnedIgnoresRefs(s, LeavePtp(s), leaked);
  }

  lemma OwnedIgnoresRefs(s: State, r: State, leaked: set<nat>)
    requires OwnedBut(s, leaked) && r.sinks == s.sinks && r.sources == s.sources && r.handles == s.handles
    ensures OwnedBut(r, leaked)
  {
    forall at: bool, i: Id
      ensures GoodAt(r, at, i)
    {
      assert GoodAt(s, at, i);
    }
    forall slot: Slot
      ensures HandleAt(r, slot) == HandleAt(s, slot)
    {
    }
    forall h | h in r.handles && h !in leaked
      ensures Held(r, h)
    {
      var slot :| HandleAt(s, slot) == h;
      assert HandleAt(r, slot) == h;
    }
  }

  /** In every operation the driver's streams stay the stored ones and the leaked ones, exactly
      unless a rollback through the end iterator gives up the handle of another stream. */
  lemma StepLeaks(s: State, op: Op, leaked: set<nat>)
    requires OwnedBut(s, leaked) && Allowed(s, op)
    ensures OwnedBut(Step(s, op), LeakedBy(s, op, leaked)) <==> !StrayHits(s, op)
  {
    hide OwnedBut, AddSink, AddSource, Remove, JoinPtp, LeavePtp, Cleared, Replaced, RolledBack;
    match op {
      case SinkAdd(id, req, nameTaken, first, other, k) =>
        if Admitted(s, true, id, req, nameTaken) {
          AddSinkReplaces(s, id, req, nameTaken, first, other, k);
          NewEntryFresh(s, true, id, req.value, true, first, other);
          ReplaceKeeps(s, true, id, NewEntry(s, req.value, true, first, other), k, leaked);
        } else {
          NotAdmitted(s, op);
        }
      case SourceAdd(id, req, nameTaken, first, other, stray, k) =>
        if !Admitted(s, false, id, req, nameTaken) {
          NotAdmitted(s, op);
        } else if SecondLegRefused(s, op) {
          RollbackOwned(s, op, leaked);
        } else {
          AddSourceReplaces(s, id, req, nameTaken, first, other, stray, k);
          NewEntryFresh(s, false, id, req.value, req.value.enabled, first, other);
          ReplaceKeeps(s, false, id, NewEntry(s, req.value, req.value.enabled, first, other), k, leaked);
        }
      case Removal(sink, id) =>
        if id <= STREAM_ID_MAX {
          RemoveClears(s, sink, id, leaked);
          ClearOwned(s, sink, id, leaked);
        } else {
          RemoveRefused(s, sink, id);
        }
      case WorkerStart(k) => PtpOwned(s, k, leaked);
      case WorkerEnd => PtpOwned(s, Kernel(true, true), leaked);
    }
  }

  /** Where nothing is leaked yet, the driver's streams stay exactly the stored ones in every
      operation but one: when the driver refuses the second leg of a source, the handle that is
      rolled back is not the new one, unless the driver has just answered with the very handle
      that was read. */
  lemma StepOwns(s: State, op: Op)
    requires Owned(s) && Allowed(s, op)
    ensures Owned(Step(s, op)) <==> !RollbackMisses(s, op)
  {
    hide Step, Cleared, RolledBack, HandleAt, GoodAt;
    StepLeaks(s, op, {});
    if SecondLegRefused(s, op) {
      RollbackSlots(s, op, {});
      var c, r := Cleared(s, false, op.id), Step(s, op);
      var h, rolled := op.first.value, RolledBack(s, op.id, op.stray);
      if rolled == h {
        assert !Held(c, h);
        assert LeakedBy(s, op, {}) == {};
      } else {
        forall slot: Slot
          ensures HandleAt(r, slot) == HandleAt(c, slot)
        {
          SlotsIgnoreHandles(c, r.handles, slot);
        }
        assert h in r.handles && !Held(r, h);
      }
    }
  }

  lemma RemoveRefused(s: State, sink: bool, id: Id)
    requires id > STREAM_ID_MAX
    ensures Remove(s, sink, id) == s
  {
  }

  // ----- whole runs -----

  function Start(second: bool): (s: State) { State(map[], map[], {}, map[], map[], second, false) }

  function After(s: State, ops: seq<Op>): (r: State) {
    if ops == [] then s else Step(After(s, ops[..|ops| - 1]), ops[|ops| - 1])
  }

  /** The driver keeps its promises throughout. */
  predicate Possible(s: State, ops: seq<Op>) {
    forall i :: 0 <= i < |ops| ==> Allowed(After(s, ops[..i]), ops[i])
  }

  /** The kernel refuses no first join of a group. */
  predicate KernelIsRightThroughout(s: State, ops: seq<Op>) {
    forall i :: 0 <= i < |ops| ==> KernelIsRight(After(s, ops[..i]), ops[i])
  }

  predicate NoMissedRollback(s: State, ops: seq<Op>) {
    forall i :: 0 <= i < |ops| ==> !RollbackMisses(After(s, ops[..i]), ops[i])
  }

  ghost predicate NoStrayHit(s: State, ops: seq<Op>) {
    forall i :: 0 <= i < |ops| ==> !StrayHits(After(s, ops[..i]), ops[i])
  }

  /** What has been leaked in a run. */
  function Leaked(s: State, ops: seq<Op>): (leaked: set<nat>) {
    if ops == [] then {}
    else
      var n := |ops| - 1;
      LeakedBy(After(s, ops[..n]), ops[n], Leaked(s, ops[..n]))
  }

  lemma StartIsRight(second: bool)
    ensures Counted(Start(second)) && Owned(Start(second))
  {
  }

  lemma PrefixRuns(s: State, ops: seq<Op>, n: nat)
    requires n <= |ops|
    ensures Possible(s, ops) ==> Possible(s, ops[..n])
    ensures KernelIsRightThroughout(s, ops) ==> KernelIsRightThroughout(s, ops[..n])
    ensures NoMissedRollback(s, ops) ==> NoMissedRollback(s, ops[..n])
    ensures NoStrayHit(s, ops) ==> NoStrayHit(s, ops[..n])
  {
    hide After, Allowed, KernelIsRight, RollbackMisses, StrayHits;
    assert forall i :: 0 <= i < n ==> ops[..n][..i] == ops[..i];
  }

  /** After every run: each group is counted once per stream that uses it, even after failed
      additions, unless the kernel refused a first join; and the driver's streams are the
      stored ones and the leaked ones, unless a rollback gave up the handle of another stream.
      Nothing is leaked unless a rollback missed. */
  lemma {:induction false} RunConserves(second: bool, ops: seq<Op>)
    requires Possible(Start(second), ops)
    ensures KernelIsRightThroughout(Start(second), ops) ==> Counted(After(Start(second), ops))
    ensures NoStrayHit(Start(second), ops) ==> OwnedBut(After(Start(second), ops), Leaked(Start(second), ops))
    ensures NoMissedRollback(Start(second), ops) ==>
              Leaked(Start(second), ops) == {} && Owned(After(Start(second), ops))
  {
    hide Counted, OwnedBut, Step, Allowed, RollbackMisses, KernelIsRight, StrayHits, LeakedBy;
    if ops == [] {
      StartIsRight(second);
    } else {
      var n := |ops| - 1;
      var before := ops[..n];
      PrefixRuns(Start(second), ops, n);
      RunConserves(second, before);
      var s := After(Start(second), before);
      assert Allowed(After(Start(second), ops[..n]), ops[n]);
      if KernelIsRightThroughout(Start(second), ops) {
        assert KernelIsRight(After(Start(second), ops[..n]), ops[n]);
        StepCounts(s, ops[n]);
      }
      if NoStrayHit(Start(second), ops) {
        assert !StrayHits(After(Start(second), ops[..n]), ops[n]);
        StepLeaks(s, ops[n], Leaked(Start(second), before));
      }
      if NoMissedRollback(Start(second), ops) {
        assert !RollbackMisses(After(Start(second), ops[..n]), ops[n]);
        StepOwns(s, ops[n]);
        NothingLeaks(s, ops[n]);
      }
    }
  }

  lemma NothingLeaks(s: State, op: Op)
    requires !RollbackMisses(s, op)
    ensures LeakedBy(s, op, {}) == {}
  {
  }

  // ----- what conservation is good for -----

  /** With the tables empty and the worker gone, everything but what was leaked is released. */
  lemma EmptyMeansReleased(s: State, leaked: set<nat>)
    requires Counted(s) && OwnedBut(s, leaked) && !s.joined && s.sinks == map[] && s.sources == map[]
    ensures s.handles == leaked
    ensures forall leg1: bool, a: Addr :: Count(Refs(s, leg1), a) == 0
  {
    forall leg1: bool, a: Addr
      ensures Count(Refs(s, leg1), a) == 0
    {
      assert CountedAt(s, leg1, a);
      assert Users(s.sinks, leg1, a) == {};
    }
    assert forall slot: Slot :: HandleAt(s, slot) == 0;
    assert forall h :: h != 0 ==> !Held(s, h);
  }

  /** Every id in turn, as far as the driver lets go of its streams. */
  function RemoveEach(s: State, sink: bool, ids: seq<Id>): (r: State)
    decreases |ids|
  {
    if ids == [] then s else RemoveEach(Remove(s, sink, ids[0]), sink, ids[1..])
  }

  /** The end of the daemon: the worker leaves, then all sources and all sinks are removed. */
  function Ended(s: State): (r: State) {
    var s1 := LeavePtp(s);
    var s2 := RemoveEach(s1, false, IdsFrom(s1.sources.Keys, 0));
    RemoveEach(s2, true, IdsFrom(s2.sinks.Keys, 0))
  }

  lemma {:induction false} RemoveEachClears(s: State, sink: bool, ids: seq<Id>, leaked: set<nat>)
    requires Counted(s) && OwnedBut(s, leaked)
    ensures var r := RemoveEach(s, sink, ids);
            && Counted(r) && OwnedBut(r, leaked) && r.joined == s.joined && Table(r, !sink) == Table(s, !sink)
            && forall id :: id in Table(r, sink) <==> id in Table(s, sink) && id !in ids
    decreases |ids|
  {
    hide Counted, OwnedBut, Remove;
    if ids != [] {
      var id := ids[0];
      assert ids == [id] + ids[1..];
      OneRemoved(s, sink, id, leaked);
      RemoveEachClears(Remove(s, sink, id), sink, ids[1..], leaked);
    }
  }

  lemma OneRemoved(s: State, sink: bool, id: Id, leaked: set<nat>)
    requires Counted(s) && OwnedBut(s, leaked)
    ensures var r := Remove(s, sink, id);
            && Counted(r) && OwnedBut(r, leaked) && r.joined == s.joined && Table(r, !sink) == Table(s, !sink)
            && Table(r, sink).Keys == Table(s, sink).Keys - {id}
  {
    hide Counted, HandleAt, Cleared, Remove, LeaveAll;
    RemoveCounts(s, sink, id);
    if id in Table(s, sink) {
      assert GoodAt(s, sink, id);
      RemoveClears(s, sink, id, leaked);
      ClearOwned(s, sink, id, leaked);
    } else {
      NothingToRemove(s, sink, id);
    }
    ClearedTables(s, sink, id);
  }

  lemma ClearedTables(s: State, sink: bool, id: Id)
    ensures var r := Cleared(s, sink, id);
            && r.joined == s.joined && Table(r, !sink) == Table(s, !sink) && Table(r, sink) == Table(s, sink) - {id}
  {
  }

  /** At the end of a run both tables are empty, no multicast membership remains, and the
      driver holds exactly the streams the run leaked. */
  lemma EndReleases(s: State, leaked: set<nat>)
    requires Counted(s) && OwnedBut(s, leaked) && s.joined
    ensures var r := Ended(s);
            && r.sinks == map[] && r.sources == map[] && r.handles == leaked
            && forall leg1: bool, a: Addr :: Count(Refs(r, leg1), a) == 0
  {
    hide Counted, OwnedBut, Remove, RemoveEach;
    PtpCounts(s, Kernel(true, true));
    PtpOwned(s, Kernel(true, true), leaked);
    var s1 := LeavePtp(s);
    RemoveEachClears(s1, false, IdsFrom(s1.sources.Keys, 0), leaked);
    var s2 := RemoveEach(s1, false, IdsFrom(s1.sources.Keys, 0));
    RemoveEachClears(s2, true, IdsFrom(s2.sinks.Keys, 0), leaked);
    assert forall id :: id !in Ended(s).sinks && id !in Ended(s).sources;
    EmptyMeansReleased(Ended(s), leaked);
  }

  predicate SinksLive(s: State) { forall id :: id in s.sinks ==> s.sinks[id].live }

  lemma SinkAddKeepsLive(s: State, op: Op)
    requires SinksLive(s) && op.SinkAdd?
    ensures SinksLive(Step(s, op))
  {
    hide Prepared, JoinLeg;
    PreparedKeeps(s, true, op.id);
  }

  lemma SourceAddKeepsSinks(s: State, op: Op)
    requires op.SourceAdd?
    ensures Step(s, op).sinks == s.sinks
  {
    hide Prepared, JoinLeg;
    PreparedKeeps(s, false, op.id);
  }

  lemma RemovalKeepsLive(s: State, sink: bool, id: Id)
    requires SinksLive(s)
    ensures SinksLive(Remove(s, sink, id))
  {
    hide Remove, LeaveLeg;
    RemoveShape(s, sink, id);
  }

  /** Sinks are never stored disabled. */
  lemma StepKeepsSinksLive(s: State, op: Op)
    requires SinksLive(s)
    ensures SinksLive(Step(s, op))
  {
    hide AddSink, AddSource, Remove, Joined, Left;
    match op {
      case SinkAdd(_, _, _, _, _, _) => SinkAddKeepsLive(s, op);
      case SourceAdd(_, _, _, _, _, _, _) => SourceAddKeepsSinks(s, op);
      case Removal(sink, id) => RemovalKeepsLive(s, sink, id);
      case _ =>
    }
  }

  lemma {:induction false} SinksStayLive(second: bool, ops: seq<Op>)
    ensures SinksLive(After(Start(second), ops))
  {
    hide Step;
    if ops != [] {
      SinksStayLive(second, ops[..|ops| - 1]);
      StepKeepsSinksLive(After(Start(second), ops[..|ops| - 1]), ops[|ops| - 1]);
    }
  }

  /** What is leaked at some point stays with the driver, referred to by no table, in every
      continuation without stray hits, until a rollback gives up that very handle. */
  lemma {:induction false} LeakStays(second: bool, ops: seq<Op>, i: nat, h: nat)
    requires Possible(Start(second), ops) && NoStrayHit(Start(second), ops) && i <= |ops|
    requires h in Leaked(Start(second), ops[..i])
    requires forall j :: i <= j < |ops| && SecondLegRefused(After(Start(second), ops[..j]), ops[j]) ==>
               RolledBack(After(Start(second), ops[..j]), ops[j].id, ops[j].stray) != h
    ensures h in Leaked(Start(second), ops)
    ensures h in After(Start(second), ops).handles && !Held(After(Start(second), ops), h)
  {
    hide After, Step, Possible, NoStrayHit, SecondLegRefused, RolledBack, HandleAt;
    RunConserves(second, ops);
    if i == |ops| {
      assert ops[..i] == ops;
    } else {
      var n := |ops| - 1;
      PrefixRuns(Start(second), ops, n);
      assert ops[..n][..i] == ops[..i];
      assert forall j :: 0 <= j < n ==> ops[..n][..j] == ops[..j];
      LeakStays(second, ops[..n], i, h);
    }
  }

  /** Such a leak: a source whose second leg is refused leaves its first stream with the driver,
      and removing the source does not help, because it is not in the table. */
  lemma RefusedSecondLegLeaks(id: Id, dest0: Addr, dest1: Addr, h: nat, stray: nat, k: Kernel)
    requires id <= STREAM_ID_MAX && h != 0 && stray != h
    ensures var op := SourceAdd(id, Some(Request(true, true, dest0, dest1)), false, Some(h), None, stray, k);
            && Allowed(Start(true), op) && LeakedBy(Start(true), op, {}) == {h}
            && var s := Step(Start(true), op);
               && s.handles == {h} && s.sinks == map[] && s.sources == map[]
               && Remove(s, false, id) == s && !Owned(s)
  {
    assert HandleAt(Step(Start(true), SourceAdd(id, Some(Request(true, true, dest0, dest1)), false, Some(h), None, stray, k)),
                    Slot(false, id, false)) == 0;
  }
}
