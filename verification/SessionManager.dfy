// The objects that the session tables live in: the driver with its set of handles, one
// reference counter per interface, and the manager that changes them all.
module SessionManager {
  import opened Text
  import opened SessionTables

  /** The driver as the fake driver has it, answering an addition as the caller decides. */
  class Driver {
    var handles: set<nat>

    constructor ()
      ensures handles == {}
    {
      handles := {};
    }

    method AddRtpStream(answer: Option<nat>) returns (handle: Option<nat>)
      modifies this
      ensures handle == answer
      ensures handles == if answer.Some? then old(handles) + {answer.value} else old(handles)
    {
      handle := answer;
      if answer.Some? {
        handles := handles + {answer.value};
      }
    }

    method RemoveRtpStream(handle: nat) returns (ok: bool)
      modifies this
      ensures ok <==> handle in old(handles)
      ensures handles == old(handles) - {handle}
    {
      ok := handle in handles;
      handles := handles - {handle};
    }
  }

  class Igmp {
    var refs: map<Addr, nat>

    constructor ()
      ensures refs == map[]
    {
      refs := map[];
    }

    /** `accepts` is the kernel's answer, for the first join of a group. */
    method JoinGroup(a: Addr, accepts: bool) returns (ok: bool)
      modifies this
      ensures refs == Joined(old(refs), a, accepts)
      ensures ok <==> Count(refs, a) == Count(old(refs), a) + 1
    {
      if a in refs && refs[a] > 0 {
        refs := refs[a := refs[a] + 1];
        return true;
      }
      if !accepts {
        return false;
      }
      refs := refs[a := 1];
      ok := true;
    }

    /** The count goes down before the kernel is asked, so its answer only shows in `ok`. */
    method LeaveGroup(a: Addr, accepts: bool) returns (ok: bool)
      modifies this
      ensures refs == Left(old(refs), a)
      ensures ok <==> Count(old(refs), a) > 1 || (Count(old(refs), a) == 1 && accepts)
    {
      if a !in refs || refs[a] == 0 {
        return false;
      }
      refs := refs[a := refs[a] - 1];
      if refs[a] > 0 {
        return true;
      }
      ok := accepts;
    }
  }

  /** What an addition answers. */
  function AddCode(s: State, sink: bool, id: Id, req: Option<Request>, nameTaken: bool, live: bool,
                   first: Option<nat>, other: Option<nat>): (code: Code) {
    if id > STREAM_ID_MAX then InvalidId
    else if req.None? then BadRequest
    else if id !in Table(s, sink) && nameTaken then NameInUse
    else if NewEntry(s, req.value, live, first, other).None? then DriverError
    else Success
  }

  /** The entry that a successful addition leaves: live, with the handles just given out. */
  predicate HasEntry(t: map<Id, Entry>, id: Id, req: Request, dual: bool, first: Option<nat>, other: Option<nat>) {
    && id in t && t[id].live && t[id].dest0 == req.dest0 && t[id].dest1 == req.dest1 && t[id].dual == dual
    && first == Some(t[id].handle0) && (dual ==> other == Some(t[id].handle1))
  }

  /** The driver refuses one of the streams that a live request needs. */
  predicate DriverRefuses(s: State, req: Request, first: Option<nat>, other: Option<nat>) {
    first.None? || (req.wantsDual && s.second && other.None?)
  }

  /** What each answer to the addition of a sink means. */
  lemma SinkAnswers(s: State, id: Id, req: Option<Request>, nameTaken: bool, first: Option<nat>, other: Option<nat>,
                    k: Kernel)
    ensures var r, code := AddSink(s, id, req, nameTaken, first, other, k), AddCode(s, true, id, req, nameTaken, true, first, other);
            && (code.Success? <==>
                  id <= 63 && req.Some? && (id in s.sinks || !nameTaken)
                  && HasEntry(r.sinks, id, req.value, req.value.wantsDual && s.second, first, other))
            && (code.DriverError? <==>
                  id <= 63 && req.Some? && (id in s.sinks || !nameTaken) && DriverRefuses(s, req.value, first, other))
            && (code.DriverError? ==> id !in r.sinks)
            && (code.InvalidId? <==> id > 63)
            && (code.BadRequest? <==> id <= 63 && req.None?)
            && (code.NameInUse? <==> id <= 63 && req.Some? && id !in s.sinks && nameTaken)
            && (code.InvalidId? || code.BadRequest? || code.NameInUse? ==> r == s)
  {
    hide Prepared, JoinLeg;
    PreparedKeeps(s, true, id);
  }

  /** What each answer to the addition of a source means; a disabled one has no streams. */
  lemma SourceAnswers(s: State, id: Id, req: Option<Request>, nameTaken: bool, first: Option<nat>, other: Option<nat>,
                      stray: nat, k: Kernel)
    ensures var r := AddSource(s, id, req, nameTaken, first, other, stray, k);
            var live := req.Some? && req.value.enabled;
            var code := AddCode(s, false, id, req, nameTaken, live, first, other);
            && (code.Success? <==>
                  id <= 63 && req.Some? && (id in s.sources || !nameTaken)
                  && if live then HasEntry(r.sources, id, req.value, req.value.wantsDual && s.second, first, other)
                     else id in r.sources && r.sources[id] == Entry(false, false, req.value.dest0, req.value.dest1, 0, 0))
            && (code.DriverError? <==>
                  id <= 63 && req.Some? && (id in s.sources || !nameTaken) && live && DriverRefuses(s, req.value, first, other))
            && (code.DriverError? ==> id !in r.sources)
            && (code.InvalidId? <==> id > 63)
            && (code.BadRequest? <==> id <= 63 && req.None?)
            && (code.NameInUse? <==> id <= 63 && req.Some? && id !in s.sources && nameTaken)
            && (code.InvalidId? || code.BadRequest? || code.NameInUse? ==> r == s)
  {
    hide Prepared, JoinLeg;
    PreparedKeeps(s, false, id);
  }

  predicate SameAt(t: map<Id, Entry>, r: map<Id, Entry>, i: Id) {
    (i in t <==> i in r) && (i in t ==> t[i] == r[i])
  }

  /** An addition touches one entry of one table. */
  lemma SinkAdditionIsLocal(s: State, id: Id, req: Option<Request>, nameTaken: bool, first: Option<nat>,
                            other: Option<nat>, k: Kernel, i: Id)
    ensures var r := AddSink(s, id, req, nameTaken, first, other, k);
            (i != id ==> SameAt(s.sinks, r.sinks, i)) && r.sources == s.sources && r.joined == s.joined
  {
    hide Prepared, JoinLeg;
    PreparedKeeps(s, true, id);
  }

  lemma SourceAdditionIsLocal(s: State, id: Id, req: Option<Request>, nameTaken: bool, first: Option<nat>,
                              other: Option<nat>, stray: nat, k: Kernel, i: Id)
    ensures var r := AddSource(s, id, req, nameTaken, first, other, stray, k);
            (i != id ==> SameAt(s.sources, r.sources, i)) && r.sinks == s.sinks && r.joined == s.joined
  {
    hide Prepared, JoinLeg;
    PreparedKeeps(s, false, id);
  }

  class Manager {
    const driver: Driver
    const igmp0: Igmp
    const igmp1: Igmp
    const second: bool
    var sinks: map<Id, Entry>
    var sources: map<Id, Entry>
    var joined: bool

    ghost function Now(): (s: State)
      reads this, driver, igmp0, igmp1
    {
      State(sinks, sources, driver.handles, igmp0.refs, igmp1.refs, second, joined)
    }

    constructor (second: bool)
      ensures Now() == Start(second) && igmp0 != igmp1
      ensures fresh(driver) && fresh(igmp0) && fresh(igmp1)
    {
      this.second := second;
      driver := new Driver();
      igmp0 := new Igmp();
      igmp1 := new Igmp();
      sinks, sources, joined := map[], map[], false;
    }

    method OnAdd(e: Entry, k: Kernel)
      requires igmp0 != igmp1
      modifies igmp0, igmp1
      ensures Now() == JoinAll(old(Now()), e, k)
    {
      if Multicast(e.dest0) {
        var _ := igmp0.JoinGroup(e.dest0, k.accepts0);
        if e.dual {
          var _ := igmp1.JoinGroup(e.dest1, k.accepts1);
        }
      }
    }

    method OnRemove(e: Entry, accepts: bool)
      requires igmp0 != igmp1
      modifies igmp0, igmp1
      ensures Now() == LeaveAll(old(Now()), e)
    {
      if Multicast(e.dest0) {
        var _ := igmp0.LeaveGroup(e.dest0, accepts);
        if e.dual {
          var _ := igmp1.LeaveGroup(e.dest1, accepts);
        }
      }
    }

    /** Gives up a stored stream before it is replaced. */
    method GiveUp(e: Entry, accepts: bool)
      requires igmp0 != igmp1
      modifies driver, igmp0, igmp1
      ensures Now() == Release(old(Now()), e)
    {
      if e.live {
        var _ := driver.RemoveRtpStream(e.handle0);
        if e.dual {
          var _ := driver.RemoveRtpStream(e.handle1);
        }
        OnRemove(e, accepts);
        assert e.dual ==> old(driver.handles) - {e.handle0} - {e.handle1} == old(driver.handles) - HandlesOf(e);
      }
    }

    method AddSinkStream(id: Id, req: Option<Request>, nameTaken: bool, first: Option<nat>, other: Option<nat>,
                         k: Kernel, accepts: bool) returns (code: Code)
      requires igmp0 != igmp1
      modifies this, driver, igmp0, igmp1
      ensures Now() == AddSink(old(Now()), id, req, nameTaken, first, other, k)
      ensures code == AddCode(old(Now()), true, id, req, nameTaken, true, first, other)
    {
      if id > STREAM_ID_MAX {
        return InvalidId;
      }
      if req.None? {
        return BadRequest;
      }
      var known := id in sinks;
      if known {
        GiveUp(sinks[id], accepts);
      } else if nameTaken {
        return NameInUse;
      }
      assert Now() == Prepared(old(Now()), true, id);
      var handle0 := driver.AddRtpStream(first);
      if handle0.None? {
        ForgetSink(id, known);
        return DriverError;
      }
      var e := Entry(true, false, req.value.dest0, req.value.dest1, handle0.value, 0);
      if second && req.value.wantsDual {
        var handle1 := driver.AddRtpStream(other);
        if handle1.None? {
          var _ := driver.RemoveRtpStream(handle0.value);
          ForgetSink(id, known);
          return DriverError;
        }
        e := e.(dual := true, handle1 := handle1.value);
      }
      OnAdd(e, k);
      sinks := sinks[id := e];
      code := Success;
    }

    /** A failed update leaves no entry. */
    method ForgetSink(id: Id, known: bool)
      requires known <==> id in sinks
      modifies this`sinks
      ensures Now() == Erase(old(Now()), true, id)
    {
      if known {
        sinks := sinks - {id};
      } else {
        assert sinks - {id} == sinks;
      }
    }

    method ForgetSource(id: Id, known: bool)
      requires known <==> id in sources
      modifies this`sources
      ensures Now() == Erase(old(Now()), false, id)
    {
      if known {
        sources := sources - {id};
      } else {
        assert sources - {id} == sources;
      }
    }

    method AddSourceStream(id: Id, req: Option<Request>, nameTaken: bool, first: Option<nat>, other: Option<nat>,
                           stray: nat, k: Kernel, accepts: bool) returns (code: Code)
      requires igmp0 != igmp1
      modifies this, driver, igmp0, igmp1
      ensures Now() == AddSource(old(Now()), id, req, nameTaken, first, other, stray, k)
      ensures code == AddCode(old(Now()), false, id, req, nameTaken, req.Some? && req.value.enabled, first, other)
    {
      if id > STREAM_ID_MAX {
        return InvalidId;
      }
      if req.None? {
        return BadRequest;
      }
      var known := id in sources;
      if known {
        GiveUp(sources[id], accepts);
      } else if nameTaken {
        return NameInUse;
      }
      assert Now() == Prepared(old(Now()), false, id);
      var e := Entry(false, false, req.value.dest0, req.value.dest1, 0, 0);
      if req.value.enabled {
        var handle0 := driver.AddRtpStream(first);
        if handle0.None? {
          ForgetSource(id, known);
          return DriverError;
        }
        e := e.(live := true, handle0 := handle0.value);
        if second && req.value.wantsDual {
          var handle1 := driver.AddRtpStream(other);
          if handle1.None? {
            var _ := driver.RemoveRtpStream(if known then sources[id].handle0 else stray);
            ForgetSource(id, known);
            return DriverError;
          }
          e := e.(dual := true, handle1 := handle1.value);
        }
        OnAdd(e, k);
      }
      sources := sources[id := e];
      code := Success;
    }

    method RemoveSinkStream(id: Id, accepts: bool) returns (code: Code)
      requires igmp0 != igmp1 && (id in sinks ==> sinks[id].live)
      modifies this, driver, igmp0, igmp1
      ensures Now() == Remove(old(Now()), true, id)
      ensures code == Success <==> id in old(sinks) && id !in sinks
      ensures id > STREAM_ID_MAX <==> code == IdInUse
      ensures code == NotInUse <==> id <= STREAM_ID_MAX && id !in old(sinks)
      ensures code in {Success, IdInUse, NotInUse, DriverError}
    {
      if id > STREAM_ID_MAX {
        return IdInUse;
      }
      if id !in sinks {
        return NotInUse;
      }
      var e := sinks[id];
      var ok := driver.RemoveRtpStream(e.handle0);
      if ok && e.dual {
        ok := driver.RemoveRtpStream(e.handle1);
      }
      if !ok {
        return DriverError;
      }
      OnRemove(e, accepts);
      sinks := sinks - {id};
      code := Success;
    }

    method RemoveSourceStream(id: Id, accepts: bool) returns (code: Code)
      requires igmp0 != igmp1
      modifies this, driver, igmp0, igmp1
      ensures Now() == Remove(old(Now()), false, id)
      ensures code == Success <==> id in old(sources) && id !in sources
      ensures id > STREAM_ID_MAX <==> code == InvalidId
      ensures code == NotInUse <==> id <= STREAM_ID_MAX && id !in old(sources)
      ensures code in {Success, InvalidId, NotInUse, DriverError}
    {
      if id > STREAM_ID_MAX {
        return InvalidId;
      }
      if id !in sources {
        return NotInUse;
      }
      var e := sources[id];
      if e.live {
        var ok := driver.RemoveRtpStream(e.handle0);
        if ok && e.dual {
          ok := driver.RemoveRtpStream(e.handle1);
        }
        if !ok {
          return DriverError;
        }
        OnRemove(e, accepts);
      }
      sources := sources - {id};
      code := Success;
    }

    method StartWorker(k: Kernel)
      requires igmp0 != igmp1
      modifies this, igmp0, igmp1
      ensures Now() == JoinPtp(old(Now()), k)
    {
      var _ := igmp0.JoinGroup(PTP_ADDR, k.accepts0);
      if second {
        var _ := igmp1.JoinGroup(PTP_ADDR, k.accepts1);
      }
      joined := true;
    }

    method EndWorker(accepts: bool)
      requires igmp0 != igmp1
      modifies this, igmp0, igmp1
      ensures Now() == LeavePtp(old(Now()))
    {
      var _ := igmp0.LeaveGroup(PTP_ADDR, accepts);
      if second {
        var _ := igmp1.LeaveGroup(PTP_ADDR, accepts);
      }
      joined := false;
    }

    method RemoveSources(accepts: bool)
      requires igmp0 != igmp1 && SinksLive(Now())
      modifies this, driver, igmp0, igmp1
      ensures Now() == RemoveEach(old(Now()), false, IdsFrom(old(sources).Keys, 0)) && SinksLive(Now())
    {
      hide Remove;
      var ids := IdsFrom(sources.Keys, 0);
      var i := 0;
      assert ids[0..] == ids;
      while i < |ids|
        invariant 0 <= i <= |ids| && SinksLive(Now())
        invariant RemoveEach(old(Now()), false, ids) == RemoveEach(Now(), false, ids[i..])
      {
        assert ids[i..][0] == ids[i] && ids[i..][1..] == ids[i + 1..];
        StepKeepsSinksLive(Now(), Removal(false, ids[i]));
        var _ := RemoveSourceStream(ids[i], accepts);
        i := i + 1;
      }
      assert ids[i..] == [];
    }

    method RemoveSinks(accepts: bool)
      requires igmp0 != igmp1 && SinksLive(Now())
      modifies this, driver, igmp0, igmp1
      ensures Now() == RemoveEach(old(Now()), true, IdsFrom(old(sinks).Keys, 0))
    {
      hide Remove;
      var ids := IdsFrom(sinks.Keys, 0);
      var i := 0;
      assert ids[0..] == ids;
      while i < |ids|
        invariant 0 <= i <= |ids| && SinksLive(Now())
        invariant RemoveEach(old(Now()), true, ids) == RemoveEach(Now(), true, ids[i..])
      {
        assert ids[i..][0] == ids[i] && ids[i..][1..] == ids[i + 1..];
        StepKeepsSinksLive(Now(), Removal(true, ids[i]));
        var _ := RemoveSinkStream(ids[i], accepts);
        i := i + 1;
      }
      assert ids[i..] == [];
    }

    /** Waits for the worker, then removes every source and every sink. */
    method Terminate(accepts: bool)
      requires igmp0 != igmp1 && SinksLive(Now())
      modifies this, driver, igmp0, igmp1
      ensures Now() == Ended(old(Now()))
    {
      hide Remove, LeavePtp, RemoveEach;
      StepKeepsSinksLive(Now(), WorkerEnd);
      EndWorker(accepts);
      RemoveSources(accepts);
      RemoveSinks(accepts);
    }
  }
}
