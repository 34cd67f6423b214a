// The session versions a source publishes.
module SessionVersions {
  // A new one comes from a global counter on every addition, an increment for every observer on
  // every refresh. Receivers rely on them to go up.

  import opened Text

  type Id = uint8

  /** `published` is the last version anyone was told for an id, even of a removed source. */
  datatype State = State(counter: nat, versions: map<Id, nat>, published: map<Id, nat>)

  /** The session id of a source comes from the host address and the id. */
  function SessionId(host: nat, id: Id): (n: nat) { host + id }

  /** What becomes of an addition: an id or an address that is no good is refused before the
      counter is read; after that the driver or a taken name can still make it fail. */
  datatype Outcome = Refused | Failed | Added

  /** The counter moves on even when the addition then fails, and a disabled source takes its
      version without anyone being told. */
  function Add(s: State, host: nat, id: Id, enabled: bool, outcome: Outcome): (r: State) {
    var v := SessionId(host, id) + s.counter;
    match outcome
    case Refused => s
    case Failed => State(s.counter + 1, s.versions - {id}, s.published)
    case Added => State(s.counter + 1, s.versions[id := v], if enabled then s.published[id := v] else s.published)
  }

  function Remove(s: State, id: Id): (r: State) { s.(versions := s.versions - {id}) }

  /** Every observer is told a version of its own. */
  function Refresh(s: State, observers: nat): (r: State) {
    var versions := map id | id in s.versions :: s.versions[id] + observers;
    State(s.counter + 1, versions, if observers == 0 then s.published else s.published + versions)
  }

  /** Nothing published so far reaches what the counter will give next, and a stored source has
      at least the version published for it. */
  ghost predicate Inv(s: State, host: nat) {
    && (forall id :: id in s.published ==> s.published[id] < SessionId(host, id) + s.counter)
    && forall id :: id in s.versions ==>
         && s.versions[id] < SessionId(host, id) + s.counter
         && (id in s.published ==> s.published[id] <= s.versions[id])
  }

  datatype Op = AddOp(id: Id, enabled: bool, outcome: Outcome) | RemoveOp(id: Id) | RefreshOp(observers: nat)

  function Step(s: State, host: nat, op: Op): (r: State) {
    match op
    case AddOp(id, enabled, outcome) => Add(s, host, id, enabled, outcome)
    case RemoveOp(id) => Remove(s, id)
    case RefreshOp(observers) => Refresh(s, observers)
  }

  /** The ids whose version is announced by a step. */
  predicate Announces(s: State, op: Op, id: Id) {
    match op
    case AddOp(i, enabled, outcome) => i == id && enabled && outcome.Added?
    case RemoveOp(_) => false
    case RefreshOp(observers) => observers > 0 && id in s.versions
  }

  lemma StepIncreases(s: State, host: nat, op: Op, id: Id)
    requires Inv(s, host) && (op.RefreshOp? ==> op.observers <= 1)
    ensures Inv(Step(s, host, op), host)
    ensures id in s.published ==> id in Step(s, host, op).published
    ensures Announces(s, op, id) ==>
              var r := Step(s, host, op);
              id in r.published && (id in s.published ==> r.published[id] > s.published[id])
    ensures !Announces(s, op, id) && id in s.published ==> Step(s, host, op).published[id] == s.published[id]
  {
  }

  /** A removal forgets the version of one source; the others, the counter and what has been
      published stay. */
  lemma RemovalAnswers(s: State, id: Id, other: Id)
    ensures var r := Remove(s, id);
            && id !in r.versions && r.counter == s.counter && r.published == s.published
            && (other != id && other in s.versions ==> other in r.versions && r.versions[other] == s.versions[other])
  {
  }

  /** What an addition does with the counter and with the stored version. */
  lemma AdditionAnswers(s: State, host: nat, id: Id, enabled: bool, outcome: Outcome)
    ensures var r := Add(s, host, id, enabled, outcome);
            && (outcome == Refused ==> r == s)
            && (outcome != Refused ==> r.counter == s.counter + 1)
            && (outcome == Failed ==> id !in r.versions && r.published == s.published)
            && (outcome == Added ==> id in r.versions && r.versions[id] == host + id + s.counter)
            && (outcome == Added && enabled ==> id in r.published && r.published[id] == r.versions[id])
            && (outcome == Added && !enabled ==> r.published == s.published)
            && forall i :: i != id && i in s.versions ==> i in r.versions && r.versions[i] == s.versions[i]
  {
  }

  function After(s: State, host: nat, ops: seq<Op>): (r: State) {
    if ops == [] then s else Step(After(s, host, ops[..|ops| - 1]), host, ops[|ops| - 1])
  }

  predicate OneObserver(ops: seq<Op>) { forall op :: op in ops && op.RefreshOp? ==> op.observers <= 1 }

  lemma {:induction false} RunKeeps(host: nat, ops: seq<Op>)
    requires OneObserver(ops)
    ensures Inv(After(State(0, map[], map[]), host, ops), host)
  {
    if ops != [] {
      var n := |ops| - 1;
      assert forall op :: op in ops[..n] ==> op in ops;
      RunKeeps(host, ops[..n]);
      assert ops[n] in ops;
      StepIncreases(After(State(0, map[], map[]), host, ops[..n]), host, ops[n], 0);
    }
  }

  /** With at most one observer, whatever is announced for a source after any run, removals and
      failed additions included, is newer than everything announced for it before. */
  lemma AnnouncedIsNewer(host: nat, ops: seq<Op>, op: Op, id: Id)
    requires OneObserver(ops + [op])
    ensures var s := After(State(0, map[], map[]), host, ops);
            var r := Step(s, host, op);
            Announces(s, op, id) && id in s.published ==> id in r.published && r.published[id] > s.published[id]
  {
    assert forall o :: o in ops ==> o in ops + [op];
    assert op in ops + [op];
    RunKeeps(host, ops);
    StepIncreases(After(State(0, map[], map[]), host, ops), host, op, id);
  }

  /** A second observer breaks this: the addition after a refresh is newer than the refresh
      exactly when at most one observer was told. */
  lemma ReAddedAfterRefresh(s: State, host: nat, id: Id, observers: nat)
    ensures var u := Refresh(Add(s, host, id, true, Added), observers);
            var r := Add(u, host, id, true, Added);
            && id in u.versions && id in u.published && id in r.published
            && (r.published[id] > u.versions[id] <==> observers <= 1)
  {
  }

  lemma RefreshIs(s: State, observers: nat, r: State)
    requires r.counter == s.counter + 1
    requires forall id :: id in r.versions <==> id in s.versions
    requires forall id :: id in s.versions ==> r.versions[id] == s.versions[id] + observers
    requires forall id :: id in r.published <==> id in s.published || (observers > 0 && id in s.versions)
    requires forall id :: id in r.published && observers > 0 && id in s.versions ==>
               r.published[id] == s.versions[id] + observers
    requires forall id :: id in r.published && !(observers > 0 && id in s.versions) ==> r.published[id] == s.published[id]
    ensures r == Refresh(s, observers)
  {
  }

  class Publisher {
    const host: nat
    var counter: nat
    var versions: map<Id, nat>
    ghost var published: map<Id, nat>

    ghost function Now(): (s: State)
      reads this
    {
      State(counter, versions, published)
    }

    constructor (host: nat)
      ensures Now() == State(0, map[], map[]) && this.host == host
    {
      this.host := host;
      counter, versions, published := 0, map[], map[];
    }

    method AddSource(id: Id, enabled: bool, outcome: Outcome)
      modifies this
      ensures Now() == Add(old(Now()), host, id, enabled, outcome)
    {
      if outcome == Refused {
        return;
      }
      var version := SessionId(host, id) + counter;
      counter := counter + 1;
      if outcome == Failed {
        versions := versions - {id};
        return;
      }
      versions := versions[id := version];
      if enabled {
        published := published[id := version];
      }
    }

    /** Goes through all sources; each observer is told the incremented version. */
    method OnUpdateSources(observers: nat)
      modifies this
      ensures Now() == Refresh(old(Now()), observers)
    {
      hide Refresh;
      var todo := versions.Keys;
      ghost var before, was := versions, published;
      while todo != {}
        invariant todo <= versions.Keys && counter == old(counter)
        invariant forall id :: id in versions <==> id in before
        invariant forall id :: id in before ==> versions[id] == before[id] + if id in todo then 0 else observers
        invariant forall id :: id in published <==> id in was || (observers > 0 && id in before && id !in todo)
        invariant forall id :: id in published && observers > 0 && id in before && id !in todo ==>
                    published[id] == before[id] + observers
        invariant forall id :: id in published && !(observers > 0 && id in before && id !in todo) ==> published[id] == was[id]
        decreases |todo|
      {
        var id :| id in todo;
        TellAll(id, observers);
        todo := todo - {id};
      }
      counter := counter + 1;
      RefreshIs(old(Now()), observers, Now());
    }

    method TellAll(id: Id, observers: nat)
      requires id in versions
      modifies this`versions, this`published
      ensures versions == old(versions)[id := old(versions)[id] + observers]
      ensures published == if observers == 0 then old(published) else old(published)[id := versions[id]]
    {
      var k := 0;
      assert versions == versions[id := versions[id]];
      while k < observers
        invariant 0 <= k <= observers
        invariant versions == old(versions)[id := old(versions)[id] + k]
        invariant published == if k == 0 then old(published) else old(published)[id := versions[id]]
      {
        versions := versions[id := versions[id] + 1];
        published := published[id := versions[id]];
        k := k + 1;
      }
    }
  }
}
