// Session announcements and deletions.
module SapAnnouncer {
  // Every round announces the active sources and sends deletions for the ones that were
  // announced before and no longer are, a fixed number of times each.

  import opened Text

  type Hash = uint32

  /** What a deletion needs to know about its source. */
  datatype Info = Info(address: uint32, sessionId: uint32, sessionVersion: uint32)

  const MAX_DELETIONS := 3

  datatype State = State(announced: map<Hash, Info>, deleted: map<Hash, nat>)

  function Counter(deleted: map<Hash, nat>, h: Hash): (n: nat) { if h in deleted then deleted[h] else 0 }

  // ----- one round, as a function -----

  function Known(s: State, active: map<Hash, Info>): (m: map<Hash, Info>) { s.announced + active }

  /** The deletions a round sends. */
  function Deletions(s: State, active: map<Hash, Info>): (m: map<Hash, Info>) { s.announced - active.Keys }

  /** The deletion counter of a hash once the round's deletions have gone out. */
  function CounterIn(s: State, active: map<Hash, Info>, h: Hash): (n: nat) {
    if h in active then 0 else Counter(s.deleted, h) + if h in s.announced then 1 else 0
  }

  function Kept(s: State, active: map<Hash, Info>): (keys: set<Hash>) {
    set h | h in Known(s, active) && CounterIn(s, active, h) < MAX_DELETIONS
  }

  /** After a round the kept hashes have a counter each, and so have strays that never were
      announced. */
  function Round(s: State, active: map<Hash, Info>): (r: State) {
    State(map h | h in Kept(s, active) :: Known(s, active)[h],
          map h | h in Kept(s, active) || (h in s.deleted && h !in Known(s, active)) :: CounterIn(s, active, h))
  }

  // ----- the announcer -----

  class Announcer {
    var announced: map<Hash, Info>
    var deleted: map<Hash, nat>

    ghost function Now(): (s: State)
      reads this
    {
      State(announced, deleted)
    }

    constructor ()
      ensures Now() == State(map[], map[])
    {
      announced, deleted := map[], map[];
    }

    /** One round; `sources` are the enabled sources with their hashes. */
    method ProcessSap(sources: seq<(Hash, Info)>) returns (ghost active: map<Hash, Info>, deletions: map<Hash, Info>)
      modifies this
      ensures active == ActiveOf(sources)
      ensures deletions == Deletions(old(Now()), active)
      ensures Now() == Round(old(Now()), active)
    {
      hide Round;
      ghost var s := Now();
      var hashes: set<Hash>;
      active, hashes := AnnounceAll(sources);
      deletions := DeleteMissing(hashes);
      Forget();
      RoundIs(s, active, Now());
    }

    method AnnounceAll(sources: seq<(Hash, Info)>) returns (ghost active: map<Hash, Info>, hashes: set<Hash>)
      modifies this
      ensures active == ActiveOf(sources) && hashes == active.Keys
      ensures announced == old(announced) + active
      ensures deleted == old(deleted) - active.Keys
    {
      hashes := {};
      active := map[];
      var i := 0;
      assert announced == old(announced) + active && deleted == old(deleted) - active.Keys;
      while i < |sources|
        invariant 0 <= i <= |sources|
        invariant active == ActiveOf(sources[..i]) && hashes == active.Keys
        invariant announced == old(announced) + active
        invariant deleted == old(deleted) - active.Keys
      {
        var (h, info) := sources[i];
        assert sources[..i + 1][..i] == sources[..i];
        announced := announced[h := info];
        hashes := hashes + {h};
        deleted := deleted - {h};
        active := active[h := info];
        i := i + 1;
      }
      assert sources[..i] == sources;
    }

    method DeleteMissing(hashes: set<Hash>) returns (deletions: map<Hash, Info>)
      modifies this`deleted
      ensures deletions == announced - hashes
      ensures forall h :: Counter(deleted, h) == Counter(old(deleted), h) + if h in announced && h !in hashes then 1 else 0
      ensures forall h :: h in deleted <==> h in old(deleted) || (h in announced && h !in hashes)
    {
      deletions := map[];
      var todo := announced.Keys;
      while todo != {}
        invariant todo <= announced.Keys
        invariant deletions == announced - hashes - todo
        invariant forall h :: Counter(deleted, h) == Counter(old(deleted), h)
                              + if h in announced && h !in hashes && h !in todo then 1 else 0
        invariant forall h :: h in deleted <==> h in old(deleted) || (h in announced && h !in hashes && h !in todo)
        decreases |todo|
      {
        var h :| h in todo;
        if h !in hashes {
          deletions := deletions[h := announced[h]];
          deleted := deleted[h := (if h in deleted then deleted[h] else 0) + 1];
        }
        todo := todo - {h};
      }
    }

    /** Looking a counter up creates it; a hash deleted often enough is forgotten. */
    method Forget()
      modifies this
      ensures forall h :: h in announced <==> h in old(announced) && Counter(old(deleted), h) < MAX_DELETIONS
      ensures forall h :: h in announced ==> announced[h] == old(announced)[h]
      ensures forall h :: h in deleted <==> h in announced || (h in old(deleted) && h !in old(announced))
      ensures forall h :: h in deleted ==> deleted[h] == Counter(old(deleted), h)
    {
      var todo := announced.Keys;
      while todo != {}
        invariant todo <= announced.Keys <= old(announced).Keys
        invariant forall h :: h in announced <==> h in todo || (h in old(announced) && Counter(old(deleted), h) < MAX_DELETIONS)
        invariant forall h :: h in announced ==> announced[h] == old(announced)[h]
        invariant forall h :: h in deleted <==>
                    (h in announced && h !in todo) || (h in old(deleted) && (h !in old(announced) || h in todo))
        invariant forall h :: h in deleted ==> deleted[h] == Counter(old(deleted), h)
        decreases |todo|
      {
        var h :| h in todo;
        if h !in deleted {
          deleted := deleted[h := 0];
        }
        if deleted[h] >= MAX_DELETIONS {
          deleted := deleted - {h};
          announced := announced - {h};
        }
        todo := todo - {h};
      }
    }
  }

  /** A state is the one after a round if it agrees hash by hash. */
  lemma RoundIs(s: State, active: map<Hash, Info>, r: State)
    requires forall h :: h in r.announced <==> h in Known(s, active) && CounterIn(s, active, h) < MAX_DELETIONS
    requires forall h :: h in r.announced ==> r.announced[h] == Known(s, active)[h]
    requires forall h :: h in r.deleted <==> h in r.announced || (h in s.deleted && h !in Known(s, active))
    requires forall h :: h in r.deleted ==> r.deleted[h] == CounterIn(s, active, h)
    ensures r == Round(s, active)
  {
  }

  function ActiveOf(sources: seq<(Hash, Info)>): (m: map<Hash, Info>) {
    if sources == [] then map[]
    else ActiveOf(sources[..|sources| - 1])[sources[|sources| - 1].0 := sources[|sources| - 1].1]
  }

  // ----- histories -----

  function After(history: seq<map<Hash, Info>>): (s: State) {
    if history == [] then State(map[], map[])
    else Round(After(history[..|history| - 1]), history[|history| - 1])
  }

  /** The last round in which a hash was active. */
  function LastActive(history: seq<map<Hash, Info>>, h: Hash): (r: Option<nat>)
    ensures r.Some? ==> r.value < |history| && h in history[r.value]
    ensures r.Some? ==> forall i :: r.value < i < |history| ==> h !in history[i]
    ensures r.None? ==> forall i :: 0 <= i < |history| ==> h !in history[i]
  {
    if history == [] then None
    else if h in history[|history| - 1] then Some(|history| - 1)
    else LastActive(history[..|history| - 1], h)
  }

  /** The state after any history: announced are the hashes active in one of the last three
      rounds, with their latest information; the counters belong to exactly those, and count
      the rounds since the hash was last active. */
  lemma {:induction false} StateAfter(history: seq<map<Hash, Info>>, h: Hash)
    ensures var s, last := After(history), LastActive(history, h);
            && (h in s.announced <==> last.Some? && |history| - 1 - last.value < MAX_DELETIONS)
            && (h in s.announced ==> s.announced[h] == history[last.value][h])
            && (h in s.deleted <==> h in s.announced)
            && (h in s.deleted ==> s.deleted[h] == |history| - 1 - last.value)
  {
    if history != [] {
      StateAfter(history[..|history| - 1], h);
    }
  }

  /** The next round sends a deletion for exactly the hashes that are not active and were last
      active at most three rounds ago: one deletion in each of three rounds, unless the hash
      comes back, and never together with an announcement. */
  lemma DeletionsSent(history: seq<map<Hash, Info>>, active: map<Hash, Info>, h: Hash)
    ensures var last := LastActive(history, h);
            h in Deletions(After(history), active)
            <==> h !in active && last.Some? && |history| - last.value <= MAX_DELETIONS
    ensures h in Deletions(After(history), active) ==>
              Deletions(After(history), active)[h] == history[LastActive(history, h).value][h]
  {
    StateAfter(history, h);
  }
}
