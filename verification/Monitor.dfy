// Monitor notifications and transition counters.
module Monitor {
  // A worker compares the properties of every monitored object with the ones it last saw and
  // pushes the differences to subscribed sessions. Replaying them has to give what the worker
  // knows. Beside it, the transition counters of a monitor.

  import opened Text

  type Oid = nat

  datatype Prop = Prop(level: nat, index: nat, value: string)

  datatype Notification = Notification(oid: Oid, level: nat, index: nat, value: string)

  function Lookup(props: seq<Prop>, level: nat, index: nat): (r: Option<string>) {
    if props == [] then None
    else if props[0].level == level && props[0].index == index then Some(props[0].value)
    else Lookup(props[1..], level, index)
  }

  /** A property is new, or has another value than in the previous round. */
  predicate Changed(prev: seq<Prop>, p: Prop) { Lookup(prev, p.level, p.index) != Some(p.value) }

  function Note(oid: Oid, p: Prop): (n: Notification) { Notification(oid, p.level, p.index, p.value) }

  /** The differences for one object. */
  function Differences(oid: Oid, prev: seq<Prop>, props: seq<Prop>): (ns: seq<Notification>) {
    if props == [] then []
    else
      var n := |props| - 1;
      Differences(oid, prev, props[..n]) + if Changed(prev, props[n]) then [Note(oid, props[n])] else []
  }

  /** Without a baseline nothing is notified. */
  function NotesFor(known: map<Oid, seq<Prop>>, oid: Oid, props: seq<Prop>): (ns: seq<Notification>) {
    if oid in known then Differences(oid, known[oid], props) else []
  }

  /** What a session is sent in a round. */
  function Sent(known: map<Oid, seq<Prop>>, current: seq<(Oid, seq<Prop>)>, subscribed: set<Oid>): (ns: seq<Notification>) {
    if current == [] then []
    else
      var n := |current| - 1;
      Sent(known, current[..n], subscribed)
      + if current[n].0 in subscribed then NotesFor(known, current[n].0, current[n].1) else []
  }

  function AsMap(current: seq<(Oid, seq<Prop>)>): (m: map<Oid, seq<Prop>>) {
    if current == [] then map[]
    else AsMap(current[..|current| - 1])[current[|current| - 1].0 := current[|current| - 1].1]
  }

  /** Every object is looked at once a round. */
  predicate DistinctOids(current: seq<(Oid, seq<Prop>)>) {
    forall i, j :: 0 <= i < j < |current| ==> current[i].0 != current[j].0
  }

  // ----- what is notified -----

  /** The value that an object had for a property, if it had it. */
  predicate Had(prev: seq<Prop>, p: Prop) {
    exists i :: 0 <= i < |prev| && prev[i] == p && forall j :: 0 <= j < i ==> prev[j].level != p.level || prev[j].index != p.index
  }

  lemma {:induction false} LookupExactly(prev: seq<Prop>, p: Prop)
    ensures Lookup(prev, p.level, p.index) == Some(p.value) <==> Had(prev, p)
  {
    if prev != [] {
      var rest := prev[1..];
      LookupExactly(rest, p);
      if prev[0].level == p.level && prev[0].index == p.index {
        if prev[0] == p {
          assert prev[0] == p;
        }
      } else {
        if Had(rest, p) {
          var i :| 0 <= i < |rest| && rest[i] == p
                   && forall j :: 0 <= j < i ==> rest[j].level != p.level || rest[j].index != p.index;
          var k := i + 1;
          assert prev[k] == p && forall j :: 0 <= j < k ==> prev[j].level != p.level || prev[j].index != p.index by {
            assert forall j :: 1 <= j < k ==> prev[j] == rest[j - 1];
          }
        }
        if Had(prev, p) {
          var i :| 0 <= i < |prev| && prev[i] == p
                   && forall j :: 0 <= j < i ==> prev[j].level != p.level || prev[j].index != p.index;
          assert i > 0;
          var k := i - 1;
          assert rest[k] == p && forall j :: 0 <= j < k ==> rest[j] == prev[j + 1];
        }
      }
    }
  }

  predicate NotedFor(oid: Oid, prev: seq<Prop>, props: seq<Prop>, n: Notification) {
    exists p :: p in props && n == Notification(oid, p.level, p.index, p.value) && !Had(prev, p)
  }

  lemma {:induction false} DifferencesExactly(oid: Oid, prev: seq<Prop>, props: seq<Prop>, n: Notification)
    ensures n in Differences(oid, prev, props) <==> NotedFor(oid, prev, props, n)
    ensures |Differences(oid, prev, props)| <= |props|
  {
    hide Had, Lookup;
    if props != [] {
      var k := |props| - 1;
      var before, p := props[..k], props[k];
      assert props == before + [p];
      DifferencesExactly(oid, prev, before, n);
      LookupExactly(prev, p);
      assert NotedFor(oid, prev, props, n) <==>
             NotedFor(oid, prev, before, n) || (n == Note(oid, p) && !Had(prev, p)) by {
        if n == Note(oid, p) && !Had(prev, p) {
          assert p in props;
        }
      }
    }
  }

  /** What a session is sent in a round: the properties of the objects it subscribes to whose
      values were not those of the round before, and nothing for an object without a baseline. */
  lemma {:induction false} SentExactly(known: map<Oid, seq<Prop>>, current: seq<(Oid, seq<Prop>)>, subscribed: set<Oid>,
                                       n: Notification)
    ensures n in Sent(known, current, subscribed) <==>
            exists k :: 0 <= k < |current| && current[k].0 in subscribed && current[k].0 in known
                        && NotedFor(current[k].0, known[current[k].0], current[k].1, n)
  {
    hide NotedFor, Differences;
    if current != [] {
      var k := |current| - 1;
      var (oid, props) := current[k];
      SentExactly(known, current[..k], subscribed, n);
      if oid in known {
        DifferencesExactly(oid, known[oid], props, n);
      }
      assert forall i :: 0 <= i < k ==> current[..k][i] == current[i];
    }
  }

  // ----- the worker -----

  class Session {
    var subscribed: set<Oid>
    var outbox: seq<Notification>

    constructor ()
      ensures subscribed == {} && outbox == []
    {
      subscribed, outbox := {}, [];
    }

    method Push(n: Notification)
      modifies this`outbox
      ensures outbox == if n.oid in subscribed then old(outbox) + [n] else old(outbox)
    {
      if n.oid in subscribed {
        outbox := outbox + [n];
      }
    }
  }

  predicate DistinctSessions(sessions: seq<Session>) {
    forall i, j :: 0 <= i < j < |sessions| ==> sessions[i] != sessions[j]
  }

  method PushToAll(sessions: seq<Session>, n: Notification)
    requires DistinctSessions(sessions)
    modifies set s | s in sessions
    ensures forall i :: 0 <= i < |sessions| ==> sessions[i].subscribed == old(sessions[i].subscribed)
    ensures forall i :: 0 <= i < |sessions| ==>
              sessions[i].outbox == old(sessions[i].outbox) + if n.oid in sessions[i].subscribed then [n] else []
  {
    var i := 0;
    while i < |sessions|
      invariant 0 <= i <= |sessions|
      invariant forall k :: 0 <= k < |sessions| ==> sessions[k].subscribed == old(sessions[k].subscribed)
      invariant forall k :: 0 <= k < i ==>
                  sessions[k].outbox == old(sessions[k].outbox) + if n.oid in sessions[k].subscribed then [n] else []
      invariant forall k :: i <= k < |sessions| ==> sessions[k].outbox == old(sessions[k].outbox)
    {
      sessions[i].Push(n);
      i := i + 1;
    }
  }

  /** The comparison of one object with its previous properties. */
  method NotifyChanges(known: map<Oid, seq<Prop>>, sessions: seq<Session>, oid: Oid, props: seq<Prop>)
    requires DistinctSessions(sessions)
    modifies set s | s in sessions
    ensures forall i :: 0 <= i < |sessions| ==> sessions[i].subscribed == old(sessions[i].subscribed)
    ensures forall i :: 0 <= i < |sessions| ==>
              sessions[i].outbox
              == old(sessions[i].outbox) + if oid in sessions[i].subscribed then NotesFor(known, oid, props) else []
  {
    hide Changed;
    var j := 0;
    while j < |props|
      invariant 0 <= j <= |props|
      invariant forall i :: 0 <= i < |sessions| ==> sessions[i].subscribed == old(sessions[i].subscribed)
      invariant forall i :: 0 <= i < |sessions| ==>
                  sessions[i].outbox
                  == old(sessions[i].outbox) + if oid in sessions[i].subscribed then NotesFor(known, oid, props[..j]) else []
    {
      var p := props[j];
      NotesForOneMore(known, oid, props, j);
      var havePrev := oid in known;
      var changed := if havePrev then Changed(known[oid], p) else true;
      if changed && havePrev && |sessions| > 0 {
        PushToAll(sessions, Note(oid, p));
      }
      j := j + 1;
    }
    assert props[..j] == props;
  }

  lemma NotesForOneMore(known: map<Oid, seq<Prop>>, oid: Oid, props: seq<Prop>, j: nat)
    requires j < |props|
    ensures NotesFor(known, oid, props[..j + 1]) ==
            NotesFor(known, oid, props[..j])
            + if oid in known && Changed(known[oid], props[j]) then [Note(oid, props[j])] else []
  {
    hide Changed;
    assert props[..j + 1][..j] == props[..j];
  }

  class Worker {
    var lastKnown: map<Oid, seq<Prop>>

    constructor ()
      ensures lastKnown == map[]
    {
      lastKnown := map[];
    }

    /** One round: compare, push, remember, and forget what is gone. */
    method Round(current: seq<(Oid, seq<Prop>)>, sessions: seq<Session>)
      requires DistinctOids(current) && DistinctSessions(sessions)
      modifies this, set s | s in sessions
      ensures lastKnown == AsMap(current)
      ensures forall i :: 0 <= i < |sessions| ==> sessions[i].subscribed == old(sessions[i].subscribed)
      ensures forall i :: 0 <= i < |sessions| ==>
                sessions[i].outbox
                == old(sessions[i].outbox) + Sent(old(lastKnown), current, sessions[i].subscribed)
    {
      hide NotesFor, Sent, AsMap;
      ghost var known := lastKnown;
      NothingSent(known);
      var i := 0;
      while i < |current|
        invariant 0 <= i <= |current|
        invariant lastKnown == known + AsMap(current[..i])
        invariant forall k :: 0 <= k < |sessions| ==> sessions[k].subscribed == old(sessions[k].subscribed)
        invariant forall k :: 0 <= k < |sessions| ==>
                    sessions[k].outbox == old(sessions[k].outbox) + Sent(known, current[..i], sessions[k].subscribed)
      {
        var (oid, props) := current[i];
        OneMoreObject(known, current, i);
        assert NotesFor(lastKnown, oid, props) == NotesFor(known, oid, props) by { NotesDependOnOne(lastKnown, known, oid, props); }
        NotifyChanges(lastKnown, sessions, oid, props);
        forall k | 0 <= k < |sessions|
          ensures Sent(known, current[..i + 1], sessions[k].subscribed) ==
                  Sent(known, current[..i], sessions[k].subscribed)
                  + if oid in sessions[k].subscribed then NotesFor(known, oid, props) else []
        {
          OneMoreSent(known, current, i, sessions[k].subscribed);
        }
        lastKnown := lastKnown[oid := props];
        i := i + 1;
      }
      assert current[..i] == current;
      var present := set c | c in current :: c.0;
      CurrentOids(current);
      lastKnown := lastKnown - (lastKnown.Keys - present);
    }
  }

  lemma NothingSent(known: map<Oid, seq<Prop>>)
    ensures AsMap([]) == map[] && forall subscribed :: Sent(known, [], subscribed) == []
  {
  }

  lemma NotesDependOnOne(m: map<Oid, seq<Prop>>, n: map<Oid, seq<Prop>>, oid: Oid, props: seq<Prop>)
    requires oid in m <==> oid in n
    requires oid in m ==> m[oid] == n[oid]
    ensures NotesFor(m, oid, props) == NotesFor(n, oid, props)
  {
  }

  lemma {:induction false} CurrentOids(current: seq<(Oid, seq<Prop>)>)
    ensures AsMap(current).Keys == set c | c in current :: c.0
  {
    if current != [] {
      var n := |current| - 1;
      CurrentOids(current[..n]);
      assert current == current[..n] + [current[n]];
    }
  }

  lemma OneMoreObject(known: map<Oid, seq<Prop>>, current: seq<(Oid, seq<Prop>)>, i: nat)
    requires i < |current| && DistinctOids(current)
    ensures AsMap(current[..i + 1]) == AsMap(current[..i])[current[i].0 := current[i].1]
    ensures current[i].0 !in AsMap(current[..i])
  {
    assert current[..i + 1][..i] == current[..i];
    CurrentOids(current[..i]);
  }

  lemma OneMoreSent(known: map<Oid, seq<Prop>>, current: seq<(Oid, seq<Prop>)>, i: nat, subscribed: set<Oid>)
    requires i < |current|
    ensures Sent(known, current[..i + 1], subscribed) ==
            Sent(known, current[..i], subscribed)
            + if current[i].0 in subscribed then NotesFor(known, current[i].0, current[i].1) else []
  {
    hide NotesFor;
    assert current[..i + 1][..i] == current[..i];
  }

  // ----- replaying the notifications -----

  /** What a client believes about one object. */
  type Client = map<(nat, nat), string>

  /** A client that looks at the notifications of one object, in order. */
  function Replay(c: Client, oid: Oid, ns: seq<Notification>): (r: Client) {
    if ns == [] then c
    else
      var n := ns[|ns| - 1];
      var before := Replay(c, oid, ns[..|ns| - 1]);
      if n.oid == oid then before[(n.level, n.index) := n.value] else before
  }

  predicate Knows(c: Client, props: seq<Prop>) {
    forall p :: p in props ==> HoldsOne(c, p)
  }

  predicate HoldsOne(c: Client, p: Prop) { Get(c, p.level, p.index) == Some(p.value) }

  function Get(c: Client, level: nat, index: nat): (r: Option<string>) {
    if (level, index) in c then Some(c[(level, index)]) else None
  }

  /** A monitor lists each of its properties once. */
  predicate DistinctKeys(props: seq<Prop>) {
    forall i, j :: 0 <= i < j < |props| ==> props[i].level != props[j].level || props[i].index != props[j].index
  }

  lemma {:induction false} ReplayConcat(c: Client, oid: Oid, xs: seq<Notification>, ys: seq<Notification>)
    ensures Replay(c, oid, xs + ys) == Replay(Replay(c, oid, xs), oid, ys)
  {
    if ys == [] {
      assert xs + ys == xs;
    } else {
      var n := |ys| - 1;
      assert (xs + ys)[..|xs| + n] == xs + ys[..n];
      ReplayConcat(c, oid, xs, ys[..n]);
    }
  }

  lemma {:induction false} LookupKnows(c: Client, prev: seq<Prop>, p: Prop)
    requires Knows(c, prev) && !Changed(prev, p)
    ensures HoldsOne(c, p)
  {
    if prev[0].level == p.level && prev[0].index == p.index {
      assert HoldsOne(c, prev[0]);
    } else {
      assert Knows(c, prev[1..]);
      LookupKnows(c, prev[1..], p);
    }
  }

  lemma {:induction false} LookupSnoc(props: seq<Prop>, last: Prop, level: nat, index: nat)
    ensures Lookup(props + [last], level, index) ==
            if Lookup(props, level, index).Some? then Lookup(props, level, index)
            else if last.level == level && last.index == index then Some(last.value) else None
  {
    if props == [] {
      assert props + [last] == [last];
    } else {
      assert (props + [last])[1..] == props[1..] + [last];
      LookupSnoc(props[1..], last, level, index);
    }
  }

  lemma {:induction false} LookupFinds(props: seq<Prop>, level: nat, index: nat)
    ensures Lookup(props, level, index).Some? <==> exists p :: p in props && p.level == level && p.index == index
  {
    if props != [] {
      LookupFinds(props[1..], level, index);
      assert props == [props[0]] + props[1..];
    }
  }

  lemma {:induction false} LookupDistinct(props: seq<Prop>, p: Prop)
    requires DistinctKeys(props) && p in props
    ensures Lookup(props, p.level, p.index) == Some(p.value)
  {
    if props[0] != p {
      assert p in props[1..];
      LookupDistinct(props[1..], p);
    }
  }

  /** One property after replaying the differences: the new value where it changed. */
  lemma {:induction false} ReplayOne(c: Client, oid: Oid, prev: seq<Prop>, props: seq<Prop>, level: nat, index: nat)
    requires DistinctKeys(props)
    ensures Get(Replay(c, oid, Differences(oid, prev, props)), level, index) ==
            match Lookup(props, level, index)
            case Some(v) => if Lookup(prev, level, index) != Some(v) then Some(v) else Get(c, level, index)
            case None => Get(c, level, index)
  {
    if props != [] {
      hide Lookup;
      var n := |props| - 1;
      var p, before := props[n], Differences(oid, prev, props[..n]);
      ReplayOne(c, oid, prev, props[..n], level, index);
      assert props == props[..n] + [p];
      LookupSnoc(props[..n], p, level, index);
      LookupFinds(props[..n], level, index);
      if Changed(prev, p) {
        assert (before + [Note(oid, p)])[..|before|] == before;
      } else {
        assert before + [] == before;
      }
    }
  }

  /** Replaying the differences turns the previous properties into the new ones. */
  lemma ReplayDifferences(c: Client, oid: Oid, prev: seq<Prop>, props: seq<Prop>)
    requires Knows(c, prev) && DistinctKeys(props)
    ensures Knows(Replay(c, oid, Differences(oid, prev, props)), props)
  {
    forall p | p in props
      ensures HoldsOne(Replay(c, oid, Differences(oid, prev, props)), p)
    {
      ReplayOne(c, oid, prev, props, p.level, p.index);
      LookupDistinct(props, p);
      if !Changed(prev, p) {
        LookupKnows(c, prev, p);
      }
    }
  }

  lemma {:induction false} OthersIgnored(c: Client, oid: Oid, ns: seq<Notification>)
    requires forall n :: n in ns ==> n.oid != oid
    ensures Replay(c, oid, ns) == c
  {
    if ns != [] {
      assert ns[|ns| - 1] in ns;
      OthersIgnored(c, oid, ns[..|ns| - 1]);
    }
  }

  lemma {:induction false} NotesName(known: map<Oid, seq<Prop>>, oid: Oid, props: seq<Prop>)
    ensures forall n :: n in NotesFor(known, oid, props) ==> n.oid == oid
  {
    if props != [] {
      NotesName(known, oid, props[..|props| - 1]);
    }
  }

  /** Of everything a session is sent in a round, only the object's own notes matter to it. */
  lemma {:induction false} ReplayRound(c: Client, oid: Oid, known: map<Oid, seq<Prop>>, current: seq<(Oid, seq<Prop>)>,
                                       subscribed: set<Oid>)
    requires DistinctOids(current) && oid in subscribed
    ensures Replay(c, oid, Sent(known, current, subscribed)) ==
            if oid in AsMap(current) then Replay(c, oid, NotesFor(known, oid, AsMap(current)[oid])) else c
  {
    hide NotesFor;
    if current != [] {
      var n := |current| - 1;
      var (u, props) := current[n];
      ReplayRound(c, oid, known, current[..n], subscribed);
      OneMoreObject(known, current, n);
      assert current[..n + 1] == current;
      var before := Sent(known, current[..n], subscribed);
      if u in subscribed {
        ReplayConcat(c, oid, before, NotesFor(known, u, props));
        NotesName(known, u, props);
        if u != oid {
          OthersIgnored(Replay(c, oid, before), oid, NotesFor(known, u, props));
        }
      } else {
        assert before + [] == before;
      }
    }
  }

  /** A stretch of rounds, each with the subscriptions of one session. */
  datatype RoundInput = RoundInput(current: seq<(Oid, seq<Prop>)>, subscribed: set<Oid>)

  /** What the session is sent in rounds 1 to `n`, round 0 being the baseline. */
  function SentIn(rounds: seq<RoundInput>, n: nat): (ns: seq<Notification>)
    requires n < |rounds|
  {
    if n == 0 then []
    else SentIn(rounds, n - 1) + Sent(AsMap(rounds[n - 1].current), rounds[n].current, rounds[n].subscribed)
  }

  /** The object is there in every round with each property once, and subscribed to. */
  ghost predicate Steady(rounds: seq<RoundInput>, oid: Oid) {
    forall i :: 0 <= i < |rounds| ==>
      && DistinctOids(rounds[i].current) && oid in rounds[i].subscribed
      && oid in AsMap(rounds[i].current) && DistinctKeys(AsMap(rounds[i].current)[oid])
  }

  /** A client that starts from the baseline holds, after replaying what it was sent, every
      property as the worker last knew it. */
  lemma {:induction false} ReplayGivesLastKnown(c: Client, rounds: seq<RoundInput>, oid: Oid, n: nat)
    requires Steady(rounds, oid) && n < |rounds| && Knows(c, AsMap(rounds[0].current)[oid])
    ensures Knows(Replay(c, oid, SentIn(rounds, n)), AsMap(rounds[n].current)[oid])
  {
    hide Knows, Sent, NotesFor, Differences, DistinctOids, DistinctKeys, AsMap, Replay;
    if n == 0 {
      ReplayNothing(c, oid);
    } else {
      ReplayGivesLastKnown(c, rounds, oid, n - 1);
      var d := Replay(c, oid, SentIn(rounds, n - 1));
      var known := AsMap(rounds[n - 1].current);
      ReplayConcat(c, oid, SentIn(rounds, n - 1), Sent(known, rounds[n].current, rounds[n].subscribed));
      ReplayRound(d, oid, known, rounds[n].current, rounds[n].subscribed);
      ReplayDifferences(d, oid, known[oid], AsMap(rounds[n].current)[oid]);
      KnownNotes(known, oid, AsMap(rounds[n].current)[oid]);
    }
  }

  lemma ReplayNothing(c: Client, oid: Oid)
    ensures Replay(c, oid, []) == c
  {
  }

  lemma KnownNotes(known: map<Oid, seq<Prop>>, oid: Oid, props: seq<Prop>)
    requires oid in known
    ensures NotesFor(known, oid, props) == Differences(oid, known[oid], props)
  {
  }

  // ----- transition counters -----

  datatype Statuses = Statuses(link: nat, secondary: nat, sync: nat, tertiary: nat)

  /** How often a value differs from the one before it. */
  function Changes(values: seq<nat>): (n: nat) {
    if |values| < 2 then 0
    else
      var k := |values| - 1;
      Changes(values[..k]) + if values[k] != values[k - 1] then 1 else 0
  }

  predicate ChangesAt(values: seq<nat>, k: nat) { 0 < k < |values| && values[k] != values[k - 1] }

  lemma {:induction false} ChangesExactly(values: seq<nat>)
    ensures Changes(values) == |set k: nat | k < |values| && ChangesAt(values, k)|
  {
    var s := set k: nat | k < |values| && ChangesAt(values, k);
    if |values| < 2 {
      assert s == {};
    } else {
      var n := |values| - 1;
      var before := values[..n];
      ChangesExactly(before);
      var t := set k: nat | k < |before| && ChangesAt(before, k);
      assert forall k: nat :: k < n ==> (ChangesAt(before, k) <==> ChangesAt(values, k));
      assert s == t + if ChangesAt(values, n) then {n} else {};
    }
  }

  function LastOf(values: seq<nat>): (v: int) { if values == [] then -1 else values[|values| - 1] }

  /** One of the four counters: the last value seen, -1 before the first, and its changes. */
  class Counter {
    var status: int
    var transitions: nat
    ghost var seen: seq<nat>

    ghost predicate Valid()
      reads this
    {
      status == LastOf(seen) && transitions == Changes(seen)
    }

    constructor ()
      ensures Valid() && seen == []
    {
      status, transitions, seen := -1, 0, [];
    }

    /** Whoever observes a value, a change is counted once. */
    method Observe(value: nat)
      requires Valid()
      modifies this
      ensures Valid() && seen == old(seen) + [value]
    {
      if status != -1 && status != value {
        transitions := transitions + 1;
      }
      status := value;
      assert (seen + [value])[..|seen|] == seen;
      seen := seen + [value];
    }
  }

  /** The counters of one monitored object. */
  class MonitorCounters {
    const link: Counter
    const secondary: Counter
    const sync: Counter
    const tertiary: Counter
    var autoReset: bool

    ghost predicate Valid()
      reads this, link, secondary, sync, tertiary
    {
      && link.Valid() && secondary.Valid() && sync.Valid() && tertiary.Valid()
      && link != secondary && link != sync && link != tertiary
      && secondary != sync && secondary != tertiary && sync != tertiary
    }

    constructor ()
      ensures Valid() && fresh(link) && fresh(secondary) && fresh(sync) && fresh(tertiary)
      ensures link.seen == [] && secondary.seen == [] && sync.seen == [] && tertiary.seen == []
    {
      link := new Counter();
      secondary := new Counter();
      sync := new Counter();
      tertiary := new Counter();
      autoReset := true;
    }

    /** One observation of all four statuses, by the worker or by a client's request. */
    method Update(s: Statuses)
      requires Valid()
      modifies link, secondary, sync, tertiary
      ensures Valid()
      ensures link.seen == old(link.seen) + [s.link] && secondary.seen == old(secondary.seen) + [s.secondary]
      ensures sync.seen == old(sync.seen) + [s.sync] && tertiary.seen == old(tertiary.seen) + [s.tertiary]
    {
      link.Observe(s.link);
      secondary.Observe(s.secondary);
      sync.Observe(s.sync);
      tertiary.Observe(s.tertiary);
    }

    /** The flag is stored; the counters stay as they are. */
    method SetAutoReset(value: bool)
      requires Valid()
      modifies this`autoReset
      ensures Valid() && autoReset == value
    {
      autoReset := value;
    }
  }
}
