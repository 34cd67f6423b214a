// Receivers follow sinks through a queue.
module NmosView {
  // The registration side keeps its own table of receivers. The session side changes the sink
  // table and queues an event for each change; a worker drains the queue into the receiver
  // table. Clients and the worker interleave at every lock boundary: a client holds the sink
  // table's lock from before its first event until after its table update, the worker takes that
  // lock only to look a sink up, and writes the receiver table later. An activation ends with a
  // write of its own: it looks its sink up and copies it into an existing receiver.

  import opened Arithmetic
  import opened Text

  type Id = uint8

  datatype Event = Added(id: Id) | Removed(id: Id) | RegistryUpdated | Other

  /** A sink as one update stored it; every update has a version of its own. */
  datatype Entry<T> = Entry(sink: T, version: nat)

  /** What an activation has looked up; `current` as long as the table still holds it. */
  datatype Copy<T> = Copy(id: Id, entry: Entry<T>, current: bool)

  /** What the client that holds the sink table's lock has done so far. */
  datatype Client<T> =
    | Idle
    | Filling(id: Id)                    // the old entry, if any, was announced as removed
    | Storing(id: Id, entry: Entry<T>)   // the new entry was announced, the table not yet updated
    | Erasing(id: Id)              // a removal was announced, the table not yet updated

  datatype Worker<T> =
    | Waiting
    | Looking(id: Id, todo: seq<Id>, handling: bool)           // about to look a sink up
    | Writing(id: Id, entry: Entry<T>, todo: seq<Id>)          // found it, about to write
    | Dropping(id: Id)
    | Resync                                                   // about to list all sinks

  /** `registered` is what the worker wrote last, `view` what the receivers show; `copies` are
      the sinks activations have looked up and not yet copied; `stale` are the receivers into
      which an outdated one was copied after the worker last wrote them. */
  datatype State<T> = State(table: map<Id, Entry<T>>, versions: nat, client: Client<T>, queue: seq<Event>,
                            worker: Worker<T>, registered: map<Id, Entry<T>>, view: map<Id, Entry<T>>,
                            copies: seq<Copy<T>>, stale: set<Id>)

  datatype Step<T> =
    // clients
    | BeginUpdate(id: Id) | BeginNew(id: Id) | Announce(sink: T) | Store | Fail
    | BeginRemove(id: Id) | Erase
    // the DNS-SD callbacks
    | Registry | Unrelated
    // the worker
    | Take | Look | Write | Drop | List | Heartbeat
    // the end of an activation
    | LookBack(id: Id) | CopyBack(k: nat)

  predicate Enabled<T>(s: State<T>, step: Step<T>) {
    match step
    case BeginUpdate(id) => s.client.Idle? && id in s.table
    case BeginNew(id) => s.client.Idle? && id !in s.table
    case Announce(_) => s.client.Filling?
    case Store => s.client.Storing?
    case Fail => s.client.Filling?
    case BeginRemove(id) => s.client.Idle? && id in s.table
    case Erase => s.client.Erasing?
    case Registry => true
    case Unrelated => true
    case Take => s.worker.Waiting? && s.queue != []
    case Look => s.worker.Looking? && s.client.Idle?
    case Write => s.worker.Writing?
    case Drop => s.worker.Dropping?
    case List => s.worker.Resync? && s.client.Idle?
    case Heartbeat => s.worker.Waiting?
    case LookBack(id) => s.client.Idle? && id in s.table
    case CopyBack(k) => k < |s.copies|
  }

  function LookNext<T>(todo: seq<Id>): (w: Worker<T>) {
    if todo == [] then Waiting else Looking(todo[0], todo[1..], false)
  }

  function Handle<T>(ev: Event): (w: Worker<T>) {
    match ev
    case Added(id) => Looking(id, [], true)
    case Removed(id) => Dropping(id)
    case RegistryUpdated => Resync
    case Other => Waiting
  }

  /** The table's entry for `id` is not what it was. */
  function Outdated<T>(copies: seq<Copy<T>>, id: Id): (r: seq<Copy<T>>)
    ensures |r| == |copies|
    ensures forall k :: 0 <= k < |copies| ==> r[k] == copies[k].(current := copies[k].current && copies[k].id != id)
  {
    seq(|copies|, k requires 0 <= k < |copies| => copies[k].(current := copies[k].current && copies[k].id != id))
  }

  function CopyInto<T>(s: State<T>, copy: Copy<T>): (s': State<T>) {
    if copy.id in s.view then
      s.(view := s.view[copy.id := copy.entry], stale := if copy.current then s.stale - {copy.id} else s.stale + {copy.id})
    else s
  }

  function Apply<T>(s: State<T>, step: Step<T>): (s': State<T>)
    requires Enabled(s, step)
  {
    match step
    case BeginUpdate(id) => s.(client := Filling(id), queue := s.queue + [Removed(id)])
    case BeginNew(id) => s.(client := Filling(id))
    case Announce(sink) =>
      s.(client := Storing(s.client.id, Entry(sink, s.versions)), versions := s.versions + 1,
         queue := s.queue + [Added(s.client.id)])
    case Store =>
      s.(client := Idle, table := s.table[s.client.id := s.client.entry], copies := Outdated(s.copies, s.client.id))
    case Fail => s.(client := Idle, table := s.table - {s.client.id}, copies := Outdated(s.copies, s.client.id))
    case BeginRemove(id) => s.(client := Erasing(id), queue := s.queue + [Removed(id)])
    case Erase => s.(client := Idle, table := s.table - {s.client.id}, copies := Outdated(s.copies, s.client.id))
    case Registry => s.(queue := s.queue + [RegistryUpdated])
    case Unrelated => s.(queue := s.queue + [Other])
    case Take => s.(queue := s.queue[1..], worker := Handle(s.queue[0]))
    case Look =>
      if s.worker.id in s.table then s.(worker := Writing(s.worker.id, s.table[s.worker.id], s.worker.todo))
      else s.(worker := LookNext(s.worker.todo))
    case Write =>
      var (id, entry) := (s.worker.id, s.worker.entry);
      s.(registered := s.registered[id := entry], view := s.view[id := entry], stale := s.stale - {id},
         worker := LookNext(s.worker.todo))
    case Drop =>
      var id := s.worker.id;
      s.(registered := s.registered - {id}, view := s.view - {id}, stale := s.stale - {id}, worker := Waiting)
    case List => s.(worker := LookNext(IdsFrom(s.table.Keys, 0)))
    case Heartbeat => s.(worker := Resync)
    case LookBack(id) => s.(copies := s.copies + [Copy(id, s.table[id], true)])
    case CopyBack(k) => CopyInto(s.(copies := s.copies[..k] + s.copies[k + 1..]), s.copies[k])
  }

  /** The receivers change only in these steps. */
  lemma WhatChanges<T>(s: State<T>, step: Step<T>)
    requires Enabled(s, step)
    ensures var s' := Apply(s, step);
            match step
            case Write =>
              && s'.view == s.view[s.worker.id := s.worker.entry]
              && s'.registered == s.registered[s.worker.id := s.worker.entry]
            case Drop => s'.view == s.view - {s.worker.id} && s'.registered == s.registered - {s.worker.id}
            case CopyBack(k) => s'.view == CopyInto(s, s.copies[k]).view && s'.registered == s.registered
            case _ => s'.view == s.view && s'.registered == s.registered
  {
    hide Outdated, IdsFrom, LookNext, Handle;
  }

  /** The registration side starts from a snapshot of the sinks. */
  predicate Initial<T(==)>(s: State<T>) {
    && s.client.Idle? && s.queue == [] && s.worker.Waiting? && s.copies == [] && s.stale == {}
    && s.registered == s.table && s.view == s.table
    && forall id :: id in s.table ==> s.table[id].version < s.versions
  }

  /** A client that stores a sink: the old one is announced as removed, if there was one, then
      the new one as added, and the table holds it in a version of its own. */
  lemma StoringAsAWhole<T>(s: State<T>, id: Id, sink: T)
    requires s.client.Idle?
    ensures var begin := if id in s.table then BeginUpdate(id) else BeginNew(id);
            && Enabled(s, begin) && Enabled(Apply(s, begin), Announce(sink))
            && var s2 := Apply(Apply(s, begin), Announce(sink));
            && s2.table == s.table && Enabled(s2, Store)
            && var r := Apply(s2, Store);
            && r.client.Idle? && r.table == s.table[id := Entry(sink, s.versions)] && r.versions == s.versions + 1
            && r.queue == s.queue + (if id in s.table then [Removed(id)] else []) + [Added(id)]
            && r.worker == s.worker && r.registered == s.registered && r.view == s.view && r.stale == s.stale
            && |r.copies| == |s.copies|
            && forall k :: 0 <= k < |s.copies| ==>
                 && r.copies[k].id == s.copies[k].id && r.copies[k].entry == s.copies[k].entry
                 && (r.copies[k].current <==> s.copies[k].current && s.copies[k].id != id)
  {
  }

  /** Callbacks and heartbeats: a registry that is found has everything registered again, through
      the queue; so does a heartbeat that the registry does not know, at once. */
  lemma CallbacksOnlyQueue<T>(s: State<T>)
    ensures Enabled(s, Registry) && Apply(s, Registry) == s.(queue := s.queue + [RegistryUpdated])
    ensures Enabled(s, Unrelated) && Apply(s, Unrelated) == s.(queue := s.queue + [Other])
    ensures s.worker.Waiting? ==> Enabled(s, Heartbeat) && Apply(s, Heartbeat) == s.(worker := Resync)
  {
  }

  /** A client that fails to store leaves no entry; one that removes a sink announces that. */
  lemma RemovingAsAWhole<T>(s: State<T>, id: Id)
    requires s.client.Idle? && id in s.table
    ensures Enabled(s, BeginUpdate(id)) && Enabled(Apply(s, BeginUpdate(id)), Fail)
    ensures Enabled(s, BeginRemove(id)) && Enabled(Apply(s, BeginRemove(id)), Erase)
    ensures var r, t := Apply(Apply(s, BeginUpdate(id)), Fail), Apply(Apply(s, BeginRemove(id)), Erase);
            && r == t && r.client.Idle? && r.table == s.table - {id} && r.queue == s.queue + [Removed(id)]
            && r.versions == s.versions && r.worker == s.worker && r.registered == s.registered && r.view == s.view
            && r.stale == s.stale
            && forall k :: 0 <= k < |s.copies| ==> (r.copies[k].current <==> s.copies[k].current && s.copies[k].id != id)
  {
  }

  ghost predicate Next<T(!new)>(s: State<T>, s': State<T>) {
    exists step :: Enabled(s, step) && s' == Apply(s, step)
  }

  ghost predicate Run<T(!new)>(run: seq<State<T>>) {
    && |run| > 0 && Initial(run[0])
    && forall i :: 0 <= i < |run| - 1 ==> Next(run[i], run[i + 1])
  }

  // ----- what keeps the two tables together -----

  function Get<T>(m: map<Id, T>, id: Id): (r: Option<T>) {
    if id in m then Some(m[id]) else None
  }

  /** Whether the last event for `id` says that the sink exists, if there is one. */
  function Verdict(events: seq<Event>, id: Id): (r: Option<bool>)
    ensures r.None? <==> Added(id) !in events && Removed(id) !in events
  {
    if events == [] then None
    else
      var last := events[|events| - 1];
      if last == Added(id) then Some(true)
      else if last == Removed(id) then Some(false)
      else Verdict(events[..|events| - 1], id)
  }

  /** The queue, with the event the worker is handling in front. */
  function Pending<T>(s: State<T>): (events: seq<Event>) {
    (match s.worker
     case Looking(id, _, true) => [Added(id)]
     case Dropping(id) => [Removed(id)]
     case _ => []) + s.queue
  }

  /** The entry the session side has announced, ahead of its table. */
  function Announced<T>(s: State<T>, id: Id): (r: Option<Entry<T>>) {
    match s.client
    case Filling(i) => if i == id then None else Get(s.table, id)
    case Storing(i, entry) => if i == id then Some(entry) else Get(s.table, id)
    case Erasing(i) => if i == id then None else Get(s.table, id)
    case Idle => Get(s.table, id)
  }

  /** What has to fit together for one sink. */
  predicate Fits<T(==)>(verdict: Option<bool>, writing: Option<Entry<T>>, registered: Option<Entry<T>>,
                        view: Option<Entry<T>>, announced: Option<Entry<T>>, stale: bool) {
    && (view.Some? <==> registered.Some?)
    && match verdict
       case Some(v) => v <==> announced.Some?
       case None =>
         if writing.Some? then announced == writing
         else registered == announced && (announced.Some? ==> ShownRight(view.value, announced.value, stale))
  }

  predicate ShownRight<T(==)>(shown: Entry<T>, newest: Entry<T>, stale: bool) {
    if stale then shown.version < newest.version else shown == newest
  }

  ghost predicate Agrees<T>(s: State<T>, id: Id) {
    && Fits(Verdict(Pending(s), id), WritingFor(s, id), Get(s.registered, id), Get(s.view, id),
            Announced(s, id), id in s.stale)
    && (s.client.Storing? && s.client.id == id ==> Verdict(Pending(s), id) == Some(true))
  }

  /** Every version in the table and in the copies is below this one. */
  function Newest<T>(s: State<T>): (v: nat) {
    if s.client.Storing? then s.client.entry.version else s.versions
  }

  predicate CopyFits<T(==)>(copy: Copy<T>, entry: Option<Entry<T>>) {
    if copy.current then entry == Some(copy.entry)
    else entry.Some? ==> copy.entry.version < entry.value.version
  }

  ghost predicate Stamped<T(!new)>(s: State<T>) {
    && (s.client.Storing? ==> s.client.entry.version < s.versions)
    && (forall id :: id in s.table ==> s.table[id].version < Newest(s))
    && forall k :: 0 <= k < |s.copies| ==>
         s.copies[k].entry.version < Newest(s) && CopyFits(s.copies[k], Get(s.table, s.copies[k].id))
  }

  ghost predicate Inv<T(!new)>(s: State<T>) {
    Stamped(s) && forall id :: Agrees(s, id)
  }

  lemma VerdictAppend(events: seq<Event>, ev: Event, id: Id)
    ensures Verdict(events + [ev], id) ==
            if ev == Added(id) then Some(true) else if ev == Removed(id) then Some(false) else Verdict(events, id)
  {
  }

  lemma {:induction false} VerdictPrepend(ev: Event, events: seq<Event>, id: Id)
    ensures Verdict([ev] + events, id) ==
            match Verdict(events, id)
            case Some(v) => Some(v)
            case None => if ev == Added(id) then Some(true) else if ev == Removed(id) then Some(false) else None
  {
    if events == [] {
      assert [ev] + events == [ev];
    } else {
      var n := |events| - 1;
      assert ([ev] + events)[..n + 1] == [ev] + events[..n];
      VerdictPrepend(ev, events[..n], id);
    }
  }

  function WritingFor<T>(s: State<T>, id: Id): (r: Option<Entry<T>>) {
    if s.worker.Writing? && s.worker.id == id then Some(s.worker.entry) else None
  }

  lemma PendingAppend<T>(s: State<T>, s': State<T>, ev: Event, id: Id)
    requires s'.worker == s.worker && s'.queue == s.queue + [ev]
    ensures Verdict(Pending(s'), id) ==
            if ev == Added(id) then Some(true) else if ev == Removed(id) then Some(false)
            else Verdict(Pending(s), id)
  {
    hide Verdict;
    assert Pending(s') == Pending(s) + [ev];
    VerdictAppend(Pending(s), ev, id);
  }

  /** The event in hand is forgotten once it is dealt with. */
  lemma PendingFront<T>(s: State<T>, id: Id)
    ensures Verdict(Pending(s), id) ==
            match Verdict(s.queue, id)
            case Some(v) => Some(v)
            case None =>
              if s.worker.Looking? && s.worker.handling && s.worker.id == id then Some(true)
              else if s.worker.Dropping? && s.worker.id == id then Some(false)
              else None
  {
    hide Verdict;
    if s.worker.Looking? && s.worker.handling {
      VerdictPrepend(Added(s.worker.id), s.queue, id);
    } else if s.worker.Dropping? {
      VerdictPrepend(Removed(s.worker.id), s.queue, id);
    } else {
      assert Pending(s) == s.queue;
    }
  }

  lemma AnnouncingKeeps<T>(s: State<T>, step: Step<T>, id: Id)
    requires Enabled(s, step) && Agrees(s, id)
    requires step.BeginUpdate? || step.Announce? || step.BeginRemove? || step.Registry? || step.Unrelated?
    ensures Agrees(Apply(s, step), id)
  {
    hide Verdict, Pending;
    var s' := Apply(s, step);
    var ev := s'.queue[|s.queue|];
    assert s'.queue == s.queue + [ev];
    PendingAppend(s, s', ev, id);
  }

  lemma TableKeeps<T>(s: State<T>, step: Step<T>, id: Id)
    requires Enabled(s, step) && Agrees(s, id)
    requires step.BeginNew? || step.Store? || step.Fail? || step.Erase?
    ensures Agrees(Apply(s, step), id)
  {
    hide Verdict, Pending;
    var s' := Apply(s, step);
    PendingFront(s, id);
    PendingFront(s', id);
    assert s'.worker == s.worker && s'.queue == s.queue;
  }

  lemma TakeKeeps<T>(s: State<T>, id: Id)
    requires Enabled(s, Take) && Agrees(s, id)
    ensures Agrees(Apply(s, Take), id)
  {
    hide Verdict, Pending;
    var s' := Apply(s, Take);
    var ev, rest := s.queue[0], s.queue[1..];
    assert s.queue == [ev] + rest;
    PendingFront(s, id);
    PendingFront(s', id);
    VerdictPrepend(ev, rest, id);
  }

  lemma WorkerKeeps<T>(s: State<T>, step: Step<T>, id: Id)
    requires Enabled(s, step) && Agrees(s, id)
    requires step.Look? || step.Write? || step.Drop? || step.List? || step.Heartbeat? || step.LookBack?
    ensures Agrees(Apply(s, step), id)
  {
    hide Verdict, Pending;
    var s' := Apply(s, step);
    PendingFront(s, id);
    PendingFront(s', id);
  }

  lemma CopyingKeeps<T(!new)>(s: State<T>, k: nat, id: Id)
    requires Enabled(s, CopyBack(k)) && Agrees(s, id) && Stamped(s)
    ensures Agrees(Apply(s, CopyBack(k)), id)
  {
    hide Verdict, Pending;
    var s' := Apply(s, CopyBack(k));
    PendingFront(s, id);
    PendingFront(s', id);
    assert CopyFits(s.copies[k], Get(s.table, s.copies[k].id));
  }

  lemma StampsKept<T(!new)>(s: State<T>, step: Step<T>)
    requires Enabled(s, step) && Stamped(s)
    ensures Stamped(Apply(s, step))
  {
    var s' := Apply(s, step);
    forall k | 0 <= k < |s'.copies|
      ensures s'.copies[k].entry.version < Newest(s') && CopyFits(s'.copies[k], Get(s'.table, s'.copies[k].id))
    {
      if step.LookBack? && k == |s.copies| {
        assert s'.copies[k] == Copy(step.id, s.table[step.id], true);
      } else {
        var j := if step.CopyBack? && k >= step.k then k + 1 else k;
        assert CopyFits(s.copies[j], Get(s.table, s.copies[j].id));
      }
    }
  }

  lemma ApplyKeeps<T(!new)>(s: State<T>, step: Step<T>)
    requires Inv(s) && Enabled(s, step)
    ensures Inv(Apply(s, step))
  {
    hide Verdict, Pending, Stamped, Apply;
    StampsKept(s, step);
    forall id
      ensures Agrees(Apply(s, step), id)
    {
      assert Agrees(s, id);
      match step
      case Take => TakeKeeps(s, id);
      case Look | Write | Drop | List | Heartbeat | LookBack(_) => WorkerKeeps(s, step, id);
      case CopyBack(k) => CopyingKeeps(s, k, id);
      case BeginNew(_) | Store | Fail | Erase => TableKeeps(s, step, id);
      case _ => AnnouncingKeeps(s, step, id);
    }
  }

  lemma StepKeeps<T(!new)>(s: State<T>, s': State<T>)
    requires Inv(s) && Next(s, s')
    ensures Inv(s')
  {
    var step :| Enabled(s, step) && s' == Apply(s, step);
    ApplyKeeps(s, step);
  }

  lemma InitialFits<T(!new)>(s: State<T>)
    requires Initial(s)
    ensures Inv(s)
  {
    forall id
      ensures Agrees(s, id)
    {
      assert Pending(s) == [];
    }
  }

  lemma {:induction false} RunKeeps<T(!new)>(run: seq<State<T>>, i: nat)
    requires Run(run) && i < |run|
    ensures Inv(run[i])
  {
    if i == 0 {
      InitialFits(run[0]);
    } else {
      RunKeeps(run, i - 1);
      StepKeeps(run[i - 1], run[i]);
    }
  }

  // ----- what a client of the receiver table may rely on -----

  /** Nothing is under way for this sink. */
  predicate Quiet<T>(s: State<T>, id: Id) {
    && Verdict(Pending(s), id).None?
    && !(s.worker.Writing? && s.worker.id == id)
    && (s.client.Idle? || s.client.id != id)
  }

  predicate Drained<T>(s: State<T>) {
    s.client.Idle? && s.queue == [] && s.worker.Waiting?
  }

  /** What one sink looks like when nothing is under way for it: the worker has registered
      what the table holds, and the receiver shows the same unless an activation copied an
      outdated sink into it since; then it shows an earlier version. */
  ghost predicate Settled<T>(s: State<T>, id: Id) {
    && Get(s.registered, id) == Get(s.table, id)
    && (id in s.view <==> id in s.table)
    && (id in s.table ==> (id in s.stale <==> s.view[id].version < s.table[id].version))
    && (id in s.table && id !in s.stale ==> s.view[id] == s.table[id])
  }

  lemma QuietIsSettled<T(!new)>(s: State<T>, id: Id)
    requires Inv(s) && Quiet(s, id)
    ensures Settled(s, id)
  {
    assert Agrees(s, id);
    assert Get(s.table, id).Some? <==> id in s.table;
    assert Get(s.view, id).Some? <==> id in s.view;
  }

  /** At every point of every run: the last queued event for a sink says whether it exists,
      and a sink for which nothing is under way is settled. */
  lemma ViewFollowsTable<T(!new)>(run: seq<State<T>>, i: nat, id: Id)
    requires Run(run) && i < |run|
    ensures Quiet(run[i], id) ==> Settled(run[i], id)
    ensures var s := run[i]; s.client.Idle? && Verdict(Pending(s), id).Some? ==>
              (Verdict(Pending(s), id) == Some(true) <==> id in s.table)
  {
    RunKeeps(run, i);
    if Quiet(run[i], id) {
      QuietIsSettled(run[i], id);
    }
    assert Agrees(run[i], id);
  }

  /** The worker has registered exactly `table`; the receivers show exactly its sinks, each in
      its current version if and only if it is not stale. */
  ghost predicate SameTables<T(!new)>(s: State<T>, table: map<Id, Entry<T>>) {
    && s.registered == table && s.view.Keys == table.Keys
    && forall id :: id in table ==>
         (s.view[id] == table[id] <==> id !in s.stale) && (id in s.stale ==> s.view[id].version < table[id].version)
  }

  lemma DrainedMeansEqual<T(!new)>(run: seq<State<T>>, i: nat)
    requires Run(run) && i < |run| && Drained(run[i])
    ensures SameTables(run[i], run[i].table)
    ensures run[i].view == run[i].table <==> forall id :: id in run[i].table ==> id !in run[i].stale
  {
    RunKeeps(run, i);
    DrainedIsSettled(run[i]);
  }

  lemma DrainedIsSettled<T(!new)>(s: State<T>)
    requires Inv(s) && Drained(s)
    ensures SameTables(s, s.table)
  {
    assert Pending(s) == [];
    forall id: Id
      ensures Settled(s, id)
      ensures id in s.registered <==> id in s.table
    {
      QuietIsSettled(s, id);
      assert Get(s.registered, id).Some? <==> id in s.registered;
    }
    assert forall id :: id in s.table ==> Settled(s, id) && s.registered[id] == s.table[id];
  }

  lemma Extend<T(!new)>(run: seq<State<T>>, step: Step<T>) returns (longer: seq<State<T>>)
    requires Run(run) && Enabled(run[|run| - 1], step)
    ensures Run(longer) && longer[|longer| - 1] == Apply(run[|run| - 1], step)
  {
    longer := run + [Apply(run[|run| - 1], step)];
    assert Next(run[|run| - 1], longer[|run|]);
  }

  lemma LookThenChange<T(!new)>(id: Id, before: T, after: T) returns (run: seq<State<T>>)
    ensures Run(run)
    ensures var was, e := Entry(before, 0), Entry(after, 1);
            run[|run| - 1] == State(map[id := e], 2, Idle, [Removed(id), Added(id)], Waiting,
                                    map[id := was], map[id := was], [Copy(id, was, false)], {})
  {
    var was := Entry(before, 0);
    run := [State(map[id := was], 1, Idle, [], Waiting, map[id := was], map[id := was], [], {})];
    run := Extend(run, LookBack(id));
    run := Extend(run, BeginUpdate(id));
    run := Extend(run, Announce(after));
    run := Extend(run, Store);
  }

  lemma LookThenRemove<T(!new)>(id: Id, before: T, after: T) returns (run: seq<State<T>>)
    ensures Run(run)
    ensures run[|run| - 1] == State(map[id := Entry(after, 1)], 2, Idle, [], Looking(id, [], true), map[], map[],
                                    [Copy(id, Entry(before, 0), false)], {})
  {
    hide Run;
    run := LookThenChange(id, before, after);
    run := Extend(run, Take);
    run := Extend(run, Drop);
    run := Extend(run, Take);
  }

  /** Contents can differ for good: an activation looks its sink up, the sink is changed and
      the worker catches up, and only then does the activation copy what it had seen. */
  lemma CopyingBackCanBeLate<T(!new)>(id: Id, before: T, after: T) returns (run: seq<State<T>>)
    ensures Run(run)
    ensures var s := run[|run| - 1];
            && Drained(s) && s.table.Keys == s.view.Keys == {id} && id in s.stale
            && s.table[id].sink == after && s.view[id].sink == before
  {
    hide Run;
    run := LookThenRemove(id, before, after);
    run := Extend(run, Look);
    run := Extend(run, Write);
    run := Extend(run, CopyBack(0));
  }

  // ----- how often the worker will write one receiver -----

  function Times(ids: seq<Id>, id: Id): (n: nat) {
    if ids == [] then 0 else (if ids[0] == id then 1 else 0) + Times(ids[1..], id)
  }

  /** The events of a queue that make the worker write `id`, if the sink is there. */
  function Registrations(queue: seq<Event>, id: Id): (n: nat) {
    if queue == [] then 0
    else (if queue[0] in {Added(id), RegistryUpdated} then 1 else 0) + Registrations(queue[1..], id)
  }

  /** How often the worker has still to write `id`. */
  function Owed<T>(s: State<T>, id: Id): (n: nat) {
    (match s.worker
     case Looking(i, todo, _) => Times([i] + todo, id)
     case Writing(i, _, todo) => Times([i] + todo, id)
     case Resync => 1
     case _ => 0)
    + Registrations(s.queue, id)
  }

  predicate Writes<T>(s: State<T>, step: Step<T>, id: Id)
    requires Enabled(s, step)
  {
    step.Write? && s.worker.id == id
  }

  predicate Drops<T>(s: State<T>, step: Step<T>, id: Id)
    requires Enabled(s, step)
  {
    step.Drop? && s.worker.id == id
  }

  /** The steps that make one more write of `id` necessary. */
  predicate Asks<T>(s: State<T>, step: Step<T>, id: Id)
    requires Enabled(s, step)
  {
    step.Registry? || step.Heartbeat? || (step.Announce? && s.client.id == id)
  }

  lemma {:induction false} RegistrationsAppend(queue: seq<Event>, ev: Event, id: Id)
    ensures Registrations(queue + [ev], id) == Registrations(queue, id) + AsCount(ev in {Added(id), RegistryUpdated})
  {
    if queue == [] {
      assert queue + [ev] == [ev];
    } else {
      assert (queue + [ev])[1..] == queue[1..] + [ev];
      RegistrationsAppend(queue[1..], ev, id);
    }
  }

  lemma {:induction false} ListedOnce(keys: set<Id>, k: nat, id: Id)
    requires k <= 0x100
    ensures Times(IdsFrom(keys, k), id) == AsCount(id in keys && id as nat >= k)
    decreases 0x100 - k
  {
    if k < 0x100 {
      var m := k + 1;
      ListedOnce(keys, m, id);
      if k in keys {
        assert IdsFrom(keys, k)[1..] == IdsFrom(keys, m);
      }
    }
  }

  lemma TimesNext<T>(todo: seq<Id>, id: Id)
    ensures var w: Worker<T> := LookNext(todo); Times(todo, id) == if w.Looking? then Times([w.id] + w.todo, id) else 0
  {
    if todo != [] {
      assert [todo[0]] + todo[1..] == todo;
    }
  }

  lemma TimesFront(i: Id, todo: seq<Id>, id: Id)
    ensures Times([i] + todo, id) == AsCount(i == id) + Times(todo, id)
  {
    assert ([i] + todo)[1..] == todo;
  }

  lemma QueueingOwes<T>(s: State<T>, step: Step<T>, id: Id)
    requires Enabled(s, step)
    requires step.BeginUpdate? || step.BeginRemove? || step.Announce? || step.Registry? || step.Unrelated?
    ensures Owed(Apply(s, step), id) == Owed(s, id) + AsCount(Asks(s, step, id))
  {
    hide Registrations, Times;
    var ev :=
      match step
      case BeginUpdate(i) => Removed(i)
      case BeginRemove(i) => Removed(i)
      case Announce(_) => Added(s.client.id)
      case Registry => RegistryUpdated
      case _ => Other;
    RegistrationsAppend(s.queue, ev, id);
  }

  lemma WorkingOwes<T>(s: State<T>, step: Step<T>, id: Id)
    requires Enabled(s, step) && id in s.table
    requires step.Look? || step.Write? || step.List?
    ensures Owed(Apply(s, step), id) + AsCount(Writes(s, step, id)) == Owed(s, id)
  {
    hide Registrations, Times, IdsFrom;
    if step.List? {
      ListedOnce(s.table.Keys, 0, id);
      TimesNext<T>(IdsFrom(s.table.Keys, 0), id);
    } else {
      TimesFront(s.worker.id, s.worker.todo, id);
      TimesNext<T>(s.worker.todo, id);
    }
  }

  lemma TakingOwes<T>(s: State<T>, id: Id)
    requires Enabled(s, Take)
    ensures Owed(Apply(s, Take), id) == Owed(s, id)
  {
    if s.queue[0].Added? {
      TimesFront(s.queue[0].id, [], id);
    }
  }

  /** While a sink is in the table, every request to register it becomes one write of its
      receiver: none is dropped and none is added. */
  lemma WritesAreOwed<T>(s: State<T>, step: Step<T>, id: Id)
    requires Enabled(s, step) && id in s.table && id in Apply(s, step).table
    ensures Owed(Apply(s, step), id) + AsCount(Writes(s, step, id)) == Owed(s, id) + AsCount(Asks(s, step, id))
  {
    hide Registrations, Times, IdsFrom;
    match step
    case BeginUpdate(_) | BeginRemove(_) | Announce(_) | Registry | Unrelated => QueueingOwes(s, step, id);
    case Take => TakingOwes(s, id);
    case Look | Write | List => WorkingOwes(s, step, id);
    case _ =>
  }

  lemma DrainedOwesNothing<T>(s: State<T>, id: Id)
    requires Drained(s)
    ensures Owed(s, id) == 0
  {
  }

  // ----- the worker alone drains the queue -----

  /** One queued event can make the worker visit every sink. */
  const PER_EVENT := 515

  /** Upper bound on the worker's remaining steps when clients pause. */
  function Work<T>(s: State<T>): (n: nat) {
    (match s.worker
     case Waiting => 0
     case Looking(_, t, _) => 2 + 2 * |t|
     case Writing(_, _, t) => 1 + 2 * |t|
     case Dropping(_) => 1
     case Resync => 514)
    + |s.queue| * PER_EVENT
  }

  function WorkerStep<T>(s: State<T>): (step: Step<T>)
    requires s.client.Idle? && !Drained(s)
    ensures Enabled(s, step)
  {
    match s.worker
    case Waiting => Take
    case Looking(_, _, _) => Look
    case Writing(_, _, _) => Write
    case Dropping(_) => Drop
    case Resync => List
  }

  lemma WorkerProgress<T>(s: State<T>)
    requires s.client.Idle? && !Drained(s)
    ensures var s' := Apply(s, WorkerStep(s)); s'.client.Idle? && s'.table == s.table && Work(s') < Work(s)
  {
    hide IdsFrom, Outdated, CopyInto;
  }

  /** The state once the worker has done everything there is to do. */
  function Drain<T>(s: State<T>): (d: State<T>)
    requires s.client.Idle?
    ensures Drained(d) && d.table == s.table
    decreases Work(s)
  {
    if Drained(s) then s
    else
      WorkerProgress(s);
      Drain(Apply(s, WorkerStep(s)))
  }

  /** From any reachable state, once clients pause the worker makes the tables equal. */
  lemma {:induction false} DrainMakesEqual<T(!new)>(run: seq<State<T>>)
    requires Run(run) && run[|run| - 1].client.Idle?
    ensures SameTables(Drain(run[|run| - 1]), run[|run| - 1].table)
    decreases Work(run[|run| - 1])
  {
    var s := run[|run| - 1];
    if Drained(s) {
      DrainedMeansEqual(run, |run| - 1);
    } else {
      var s' := Apply(s, WorkerStep(s));
      WorkerProgress(s);
      assert Next(s, s');
      DrainMakesEqual(run + [s']);
    }
  }
}
