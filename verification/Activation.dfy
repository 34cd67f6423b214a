// IS-05 receiver activations.
module Activation {
  // An activation promotes the staged state, then changes the sink; the change comes back
  // through the event queue as a removal and an addition, which erase and rebuild the very entry
  // that was just promoted.

  import opened Text
  import opened NmosSdp
  import NmosView

  type Id = NmosView.Id
  type Event = NmosView.Event

  datatype Sink = Sink(useSdp: bool, sdp: string, source: string)

  datatype Act = Act(mode: string, requestedTime: string, activationTime: string)

  const NO_ACT := Act("", "", "")

  datatype Receiver = Receiver(sink: Sink, stagedEnable: bool, stagedSender: string, stagedAct: Act,
                               stagedTp: seq<ReceiverTp>, activeEnable: bool, activeSender: string,
                               activeAct: Act, activeTp: seq<ReceiverTp>)

  const BLANK := Receiver(Sink(false, "", ""), false, "", NO_ACT, [], false, "", NO_ACT, [])

  /** The interface addresses; the second one exists on dual-leg configurations. */
  datatype Config = Config(firstIp: string, secondIp: Option<string>)

  /** The registration side's tables, the queue, and the sinks it can look up. */
  datatype View = View(receivers: map<Id, Receiver>, preserved: map<Id, string>,
                       events: seq<Event>, sinks: map<Id, Sink>)

  /** What add_sink makes of the sink an activation hands it. */
  datatype Outcome = Updated | UpdateFailed | Refused

  // ----- the operations on values -----

  function PlainTp(ip: string): (tp: ReceiverTp) { ReceiverTp(ip, "", DEFAULT_PORT, "auto", false) }

  function Tps(sink: Sink, cfg: Config): (tps: seq<ReceiverTp>) {
    if Connected(sink) then TpsFromSdp(sink.sdp, cfg.firstIp, cfg.secondIp)
    else [PlainTp(cfg.firstIp)] + if cfg.secondIp.Some? then [PlainTp(cfg.secondIp.value)] else []
  }

  predicate Connected(sink: Sink) { sink.useSdp && sink.sdp != "" }

  /** A receiver once its sink is registered again; the record of its last activation stays. */
  function Registered(rr: Receiver, sink: Sink, sender: string, cfg: Config): (r: Receiver) {
    rr.(sink := sink, stagedEnable := Connected(sink), stagedTp := Tps(sink, cfg),
        activeEnable := Connected(sink), activeTp := Tps(sink, cfg), activeSender := sender)
  }

  function EntryOf(receivers: map<Id, Receiver>, id: Id): (rr: Receiver) {
    if id in receivers then receivers[id] else BLANK
  }

  function SenderOf(preserved: map<Id, string>, id: Id): (sender: string) {
    if id in preserved then preserved[id] else ""
  }

  function RegisterLocal(v: View, id: Id, cfg: Config): (r: View)
    ensures r.sinks == v.sinks && r.events == v.events
  {
    if id !in v.sinks then v
    else
      var rr := Registered(EntryOf(v.receivers, id), v.sinks[id], SenderOf(v.preserved, id), cfg);
      v.(receivers := v.receivers[id := rr], preserved := v.preserved - {id})
  }

  function RegisterAll(v: View, ids: seq<Id>, cfg: Config): (r: View)
    ensures r.sinks == v.sinks && r.events == v.events
    decreases |ids|
  {
    if ids == [] then v else RegisterAll(RegisterLocal(v, ids[0], cfg), ids[1..], cfg)
  }

  function Handle(v: View, ev: Event, cfg: Config): (r: View)
    ensures r.sinks == v.sinks && r.events == v.events
  {
    match ev
    case Added(id) => RegisterLocal(v, id, cfg)
    case Removed(id) => v.(receivers := v.receivers - {id})
    case RegistryUpdated => RegisterAll(v, IdsFrom(v.sinks.Keys, 0), cfg)
    case Other => v
  }

  /** The worker's loop over the queue. */
  function Drain(v: View, cfg: Config): (r: View)
    ensures r.events == [] && r.sinks == v.sinks
    decreases |v.events|
  {
    if v.events == [] then v else Drain(Handle(v.(events := v.events[1..]), v.events[0], cfg), cfg)
  }

  /** Replacing an existing sink, with the events that announce it. */
  function UpdateSink(v: View, id: Id, sink: Sink, outcome: Outcome): (r: View)
    requires id in v.sinks
  {
    match outcome
    case Refused => v
    case UpdateFailed => v.(sinks := v.sinks - {id}, events := v.events + [NmosView.Removed(id)])
    case Updated =>
      v.(sinks := v.sinks[id := sink], events := v.events + [NmosView.Removed(id), NmosView.Added(id)])
  }

  predicate HasAudio(sdp: string) { Find(sdp, "m=audio", 0).Some? }

  /** Whether an activation goes through; `resolved` is the sender's description, if found. */
  predicate Accepted(rr: Receiver, resolved: string) {
    rr.stagedEnable && rr.stagedSender != "" ==> resolved != "" && HasAudio(resolved)
  }

  /** What an activation takes over from the staged state it has read. */
  datatype Promotion = Promotion(enable: bool, sender: string, tp: seq<ReceiverTp>, mode: string, activationTime: string)

  function Staged(rr: Receiver): (p: Promotion) {
    Promotion(rr.stagedEnable, rr.stagedSender, rr.stagedTp, rr.stagedAct.mode, rr.stagedAct.activationTime)
  }

  /** With a sender the transport parameters come from its description. */
  function Resolved(p: Promotion, resolved: string, cfg: Config): (r: Promotion) {
    if p.enable && p.sender != "" then p.(tp := TpsFromSdp(resolved, cfg.firstIp, cfg.secondIp)) else p
  }

  function Sender(p: Promotion): (sender: string) { if p.enable then p.sender else "" }

  function Promoted(rr: Receiver, p: Promotion): (r: Receiver) {
    rr.(activeEnable := p.enable, activeSender := Sender(p), activeTp := p.tp,
        activeAct := rr.activeAct.(mode := p.mode, activationTime := p.activationTime))
  }

  // The three critical sections of an activation.

  function Promote(v: View, id: Id, p: Promotion): (r: View) {
    if id !in v.receivers then v
    else v.(receivers := v.receivers[id := Promoted(v.receivers[id], p)], preserved := v.preserved[id := Sender(p)])
  }

  /** Disabling hands add_sink an empty URL, which it refuses. */
  function ChangeSink(v: View, id: Id, p: Promotion, resolved: string, outcome: Outcome): (r: View) {
    if Sender(p) != "" && id in v.sinks then UpdateSink(v, id, Sink(true, resolved, ""), outcome) else v
  }

  function WriteBack(v: View, id: Id): (r: View) {
    if id in v.sinks && id in v.receivers then v.(receivers := v.receivers[id := v.receivers[id].(sink := v.sinks[id])])
    else v
  }

  function Activate(v: View, id: Id, resolved: string, outcome: Outcome, cfg: Config): (r: View) {
    if id !in v.receivers || !Accepted(v.receivers[id], resolved) then v
    else
      var p := Resolved(Staged(v.receivers[id]), resolved, cfg);
      WriteBack(ChangeSink(Promote(v, id, p), id, p, resolved, outcome), id)
  }

  // ----- the class -----

  class Registration {
    var receivers: map<Id, Receiver>
    var preserved: map<Id, string>
    var events: seq<Event>
    var sinks: map<Id, Sink>
    const cfg: Config

    ghost function Now(): (v: View)
      reads this
    {
      View(receivers, preserved, events, sinks)
    }

    constructor (cfg: Config)
      ensures Now() == View(map[], map[], [], map[]) && this.cfg == cfg
    {
      receivers, preserved, events, sinks := map[], map[], [], map[];
      this.cfg := cfg;
    }

    method RegisterSinkLocal(id: Id) returns (ok: bool)
      modifies this`receivers, this`preserved
      ensures Now() == RegisterLocal(old(Now()), id, cfg)
      ensures ok <==> id in sinks
    {
      if id !in sinks {
        return false;
      }
      var sink := sinks[id];
      var tps := Tps(sink, cfg);
      var connected := sink.useSdp && sink.sdp != "";
      var rr := BLANK;
      if id in receivers {
        rr := receivers[id];
      }
      rr := rr.(sink := sink, stagedEnable := connected, stagedTp := tps, activeEnable := connected, activeTp := tps);
      if id in preserved {
        rr := rr.(activeSender := preserved[id]);
        preserved := preserved - {id};
      } else {
        rr := rr.(activeSender := "");
        assert preserved - {id} == preserved;
      }
      receivers := receivers[id := rr];
      ok := true;
    }

    method UnregisterSink(id: Id)
      modifies this`receivers
      ensures Now() == Handle(old(Now()), NmosView.Removed(id), cfg)
    {
      if id in receivers {
        receivers := receivers - {id};
      } else {
        assert receivers - {id} == receivers;
      }
    }

    method FullRegistration()
      modifies this`receivers, this`preserved
      ensures Now() == Handle(old(Now()), NmosView.RegistryUpdated, cfg)
    {
      var ids := IdsFrom(sinks.Keys, 0);
      var i := 0;
      while i < |ids|
        invariant 0 <= i <= |ids|
        invariant sinks == old(sinks) && events == old(events)
        invariant RegisterAll(old(Now()), ids, cfg) == RegisterAll(Now(), ids[i..], cfg)
      {
        assert ids[i..][0] == ids[i] && ids[i..][1..] == ids[i + 1..];
        var _ := RegisterSinkLocal(ids[i]);
        i := i + 1;
      }
      assert ids[i..] == [];
    }

    /** The worker's inner loop. */
    method ProcessEvents()
      modifies this`receivers, this`preserved, this`events
      ensures Now() == Drain(old(Now()), cfg)
    {
      while events != []
        invariant sinks == old(sinks)
        invariant Drain(Now(), cfg) == Drain(old(Now()), cfg)
        decreases |events|
      {
        var ev := events[0];
        events := events[1..];
        match ev {
          case Added(id) => var _ := RegisterSinkLocal(id);
          case Removed(id) => UnregisterSink(id);
          case RegistryUpdated => FullRegistration();
          case Other =>
        }
      }
    }

    /** Under the lock of the receivers. */
    method PromoteStaged(id: Id, p: Promotion) returns (found: bool)
      modifies this`receivers, this`preserved
      ensures Now() == Promote(old(Now()), id, p)
      ensures found <==> id in old(receivers)
    {
      if id !in receivers {
        return false;
      }
      var rr := receivers[id];
      rr := rr.(activeEnable := p.enable, activeSender := if p.enable then p.sender else "",
                activeAct := rr.activeAct.(mode := p.mode, activationTime := p.activationTime), activeTp := p.tp);
      receivers := receivers[id := rr];
      preserved := preserved[id := rr.activeSender];
      found := true;
    }

    /** Under the lock of the sinks; what add_sink answers is `outcome`. */
    method ConnectSink(id: Id, p: Promotion, sdp: string, outcome: Outcome)
      modifies this`sinks, this`events
      ensures Now() == ChangeSink(old(Now()), id, p, sdp, outcome)
    {
      if p.enable && p.sender != "" && id in sinks {
        if outcome == Updated {
          events := events + [NmosView.Removed(id), NmosView.Added(id)];
          sinks := sinks[id := Sink(true, sdp, "")];
        } else if outcome == UpdateFailed {
          events := events + [NmosView.Removed(id)];
          sinks := sinks - {id};
        }
      }
    }

    method RefreshSink(id: Id)
      modifies this`receivers
      ensures Now() == WriteBack(old(Now()), id)
    {
      if id in sinks {
        var sink := sinks[id];
        if id in receivers {
          receivers := receivers[id := receivers[id].(sink := sink)];
        }
      }
    }

    /** Promotes the staged state of one receiver and changes its sink accordingly, when
        nothing else happens between its three critical sections. */
    method ApplyReceiverActivation(id: Id, resolved: string, outcome: Outcome)
      modifies this
      ensures Now() == Activate(old(Now()), id, resolved, outcome, cfg)
    {
      if id !in receivers {
        return;
      }
      var p := Staged(receivers[id]);
      var sdp := "";
      if p.enable && p.sender != "" {
        sdp := resolved;
        if sdp == "" {
          return;
        }
        p := p.(tp := TpsFromSdp(sdp, cfg.firstIp, cfg.secondIp));
      }
      if p.enable && sdp != "" && !HasAudio(sdp) {
        return;
      }
      var found := PromoteStaged(id, p);
      ConnectSink(id, p, sdp, outcome);
      RefreshSink(id);
    }
  }

  lemma {:induction false} FoundExactly(s: string, pat: string, from: nat)
    ensures Find(s, pat, from).Some? <==> exists i :: from <= i <= |s| && Matches(s, pat, i)
    decreases |s| - from
  {
    if from + |pat| <= |s| && !Matches(s, pat, from) && from < |s| {
      FoundExactly(s, pat, from + 1);
    }
  }

  /** A description has audio if it says so anywhere. */
  lemma HasAudioExactly(sdp: string)
    ensures HasAudio(sdp) <==> exists i :: 0 <= i <= |sdp| && Matches(sdp, "m=audio", i)
  {
    FoundExactly(sdp, "m=audio", 0);
  }

  // ----- what a registered receiver shows -----

  /** A leg that listens to nothing. */
  predicate Silent(tp: ReceiverTp, ip: string) {
    tp.interfaceIp == ip && tp.multicastIp == "" && tp.destPort == 5004 && tp.sourceIp == "auto" && !tp.rtpEnabled
  }

  /** Staged and active state agree and follow the sink: its description where it has one, and
      one silent leg for every interface where it has none. Other receivers stay. */
  lemma RegisteredAsItsSink(v: View, id: Id, cfg: Config, other: Id)
    requires id in v.sinks
    ensures var r, sink := RegisterLocal(v, id, cfg), v.sinks[id];
            && id in r.receivers && id !in r.preserved
            && var rr := r.receivers[id];
            && rr.sink == sink && rr.stagedEnable == rr.activeEnable && rr.stagedTp == rr.activeTp
            && (rr.activeEnable <==> sink.useSdp && sink.sdp != "")
            && (rr.activeEnable ==> rr.activeTp == TpsFromSdp(sink.sdp, cfg.firstIp, cfg.secondIp))
            && (!rr.activeEnable ==>
                  && |rr.activeTp| == (if cfg.secondIp.Some? then 2 else 1) && Silent(rr.activeTp[0], cfg.firstIp)
                  && (cfg.secondIp.Some? ==> Silent(rr.activeTp[1], cfg.secondIp.value)))
            && (id in v.preserved ==> rr.activeSender == v.preserved[id])
            && (id !in v.preserved ==> rr.activeSender == "")
            && (id in v.receivers ==> rr.stagedSender == v.receivers[id].stagedSender
                                      && rr.stagedAct == v.receivers[id].stagedAct && rr.activeAct == v.receivers[id].activeAct)
    ensures other != id ==> SameAt(v, RegisterLocal(v, id, cfg), other)
  {
  }

  // ----- what survives -----

  /** No pending event concerns this sink. */
  predicate NoEventFor(events: seq<Event>, id: Id) {
    NmosView.Added(id) !in events && NmosView.Removed(id) !in events
  }

  lemma {:induction false} RegisterAllTakesPreserved(v: View, ids: seq<Id>, id: Id, cfg: Config)
    ensures id in ids && id in v.sinks ==> id !in RegisterAll(v, ids, cfg).preserved
    ensures id !in v.preserved ==> id !in RegisterAll(v, ids, cfg).preserved
    ensures id in v.receivers ==> id in RegisterAll(v, ids, cfg).receivers
    decreases |ids|
  {
    if ids != [] {
      RegisterAllTakesPreserved(RegisterLocal(v, ids[0], cfg), ids[1..], id, cfg);
    }
  }

  /** Registering a built entry again keeps everything but its sender. */
  lemma {:induction false} RegisterAllRebuilds(v: View, ids: seq<Id>, id: Id, sender: string, cfg: Config)
    requires id in v.sinks && id !in v.preserved
    requires NmosView.Get(v.receivers, id) == Some(Registered(BLANK, v.sinks[id], sender, cfg))
    ensures var r := RegisterAll(v, ids, cfg);
            && id !in r.preserved
            && NmosView.Get(r.receivers, id)
               == Some(Registered(BLANK, v.sinks[id], if id in ids then "" else sender, cfg))
    decreases |ids|
  {
    hide Tps;
    if ids != [] {
      var v' := RegisterLocal(v, ids[0], cfg);
      assert NmosView.Get(v.receivers, id) == Some(v.receivers[id]);
      RegisterAllRebuilds(v', ids[1..], id, if ids[0] == id then "" else sender, cfg);
    }
  }

  /** Draining up to the two events of an update of `id`. */
  lemma {:induction false} DrainToUpdate(v: View, before: seq<Event>, id: Id, after: seq<Event>, cfg: Config)
    returns (w: View)
    requires id in v.sinks && NoEventFor(before, id)
    requires v.events == before + [NmosView.Removed(id), NmosView.Added(id)] + after
    ensures w.events == [NmosView.Removed(id), NmosView.Added(id)] + after && w.sinks == v.sinks
    ensures Drain(v, cfg) == Drain(w, cfg)
    ensures NmosView.Get(w.preserved, id) ==
            if NmosView.RegistryUpdated in before then None else NmosView.Get(v.preserved, id)
    decreases |before|
  {
    if before == [] {
      w := v;
    } else {
      var ev, rest := before[0], before[1..];
      var v' := Handle(v.(events := v.events[1..]), ev, cfg);
      assert v.events[1..] == rest + [NmosView.Removed(id), NmosView.Added(id)] + after;
      if ev.RegistryUpdated? {
        RegisterAllTakesPreserved(v.(events := v.events[1..]), IdsFrom(v.sinks.Keys, 0), id, cfg);
      }
      w := DrainToUpdate(v', rest, id, after, cfg);
      assert NoEventFor(rest, id);
    }
  }

  /** What events that do not name the sink leave of its entry. */
  lemma {:induction false} DrainAfter(v: View, id: Id, sender: string, cfg: Config)
    requires id in v.sinks && id !in v.preserved && NoEventFor(v.events, id)
    requires NmosView.Get(v.receivers, id) == Some(Registered(BLANK, v.sinks[id], sender, cfg))
    ensures var r := Drain(v, cfg);
            && id !in r.preserved
            && NmosView.Get(r.receivers, id) == Some(Registered(BLANK, v.sinks[id],
                 if NmosView.RegistryUpdated in v.events then "" else sender, cfg))
    decreases |v.events|
  {
    hide Registered, RegisterLocal, RegisterAll;
    if v.events != [] {
      var ev, rest := v.events[0], v.events[1..];
      var w := v.(events := rest);
      var v' := Handle(w, ev, cfg);
      assert NoEventFor(rest, id);
      assert NmosView.Get(v'.receivers, id)
             == Some(Registered(BLANK, v.sinks[id], if ev.RegistryUpdated? then "" else sender, cfg))
             && id !in v'.preserved by {
        EventElsewhere(w, ev, id, sender, cfg);
      }
      DrainAfter(v', id, if ev.RegistryUpdated? then "" else sender, cfg);
    }
  }

  lemma EventElsewhere(w: View, ev: Event, id: Id, sender: string, cfg: Config)
    requires id in w.sinks && id !in w.preserved && ev != NmosView.Added(id) && ev != NmosView.Removed(id)
    requires NmosView.Get(w.receivers, id) == Some(Registered(BLANK, w.sinks[id], sender, cfg))
    ensures var v' := Handle(w, ev, cfg);
            && id !in v'.preserved
            && NmosView.Get(v'.receivers, id)
               == Some(Registered(BLANK, w.sinks[id], if ev.RegistryUpdated? then "" else sender, cfg))
  {
    hide Registered;
    if ev.RegistryUpdated? {
      RegisterAllRebuilds(w, IdsFrom(w.sinks.Keys, 0), id, sender, cfg);
    }
  }

  /** The entry of an updated sink after the queue has been drained. */
  lemma DrainUpdate(v: View, before: seq<Event>, id: Id, after: seq<Event>, cfg: Config)
    requires id in v.sinks && NoEventFor(before, id) && NoEventFor(after, id)
    requires v.events == before + [NmosView.Removed(id), NmosView.Added(id)] + after
    ensures var r := Drain(v, cfg);
            && id in r.receivers && id !in r.preserved
            && r.receivers[id] == Registered(BLANK, v.sinks[id],
                 if NmosView.RegistryUpdated in before + after then "" else SenderOf(v.preserved, id), cfg)
  {
    hide Tps;
    var w := DrainToUpdate(v, before, id, after, cfg);
    var w1 := Handle(w.(events := w.events[1..]), NmosView.Removed(id), cfg);
    var w2 := Handle(w1.(events := after), NmosView.Added(id), cfg);
    assert w.events[1..] == [NmosView.Added(id)] + after && w1.events[1..] == after;
    assert Drain(w, cfg) == Drain(w1, cfg) == Drain(w2, cfg);
    assert NmosView.Get(w.preserved, id).Some? <==> id in w.preserved;
    DrainAfter(w2, id, SenderOf(w.preserved, id), cfg);
    assert NmosView.Get(Drain(w2, cfg).receivers, id).Some?;
  }

  /** An activation that updates its sink, with `after` arriving before the worker is through:
      the sink, the enable flag and the transport parameters survive the rebuild, the sender
      does if and only if no re-registration is queued before or after it, and the record of
      the activation is always lost. ActivationRuns has the same for every interleaving. */
  lemma ActivationSurvivesRebuild(v: View, id: Id, resolved: string, after: seq<Event>, cfg: Config)
    requires id in v.receivers && id in v.sinks && NoEventFor(v.events, id) && NoEventFor(after, id)
    requires v.receivers[id].stagedEnable && v.receivers[id].stagedSender != ""
    requires Accepted(v.receivers[id], resolved)
    ensures var v' := Activate(v, id, resolved, Updated, cfg);
            var a, d := v'.receivers[id], Drain(v'.(events := v'.events + after), cfg);
            && id in d.receivers && id !in d.preserved
            && a.activeEnable && a.activeSender == v.receivers[id].stagedSender
            && a.activeTp == TpsFromSdp(resolved, cfg.firstIp, cfg.secondIp)
            && d.receivers[id].activeEnable == a.activeEnable
            && d.receivers[id].activeTp == a.activeTp
            && d.receivers[id].sink == Sink(true, resolved, "")
            && (d.receivers[id].activeSender == a.activeSender <==> NmosView.RegistryUpdated !in v.events + after)
            && d.receivers[id].activeAct == NO_ACT
  {
    var v' := Activate(v, id, resolved, Updated, cfg);
    DrainUpdate(v'.(events := v'.events + after), v.events, id, after, cfg);
  }

  /** When an activation touches its sink: it goes through, it enables the receiver with a
      sender, and add_sink accepts the description. */
  lemma WhenTheSinkChanges(v: View, id: Id, resolved: string, outcome: Outcome, cfg: Config)
    requires id in v.receivers && id in v.sinks
    ensures Activate(v, id, resolved, outcome, cfg).events != v.events <==>
            var rr := v.receivers[id];
            rr.stagedEnable && rr.stagedSender != "" && resolved != "" && HasAudio(resolved) && outcome != Refused
    ensures Activate(v, id, resolved, outcome, cfg).events == v.events ==>
            Activate(v, id, resolved, outcome, cfg).sinks == v.sinks
  {
  }

  /** Enabling a receiver without a sender needs no description: what was staged is promoted, and
      the sink stays. */
  lemma EnablingWithoutSender(v: View, id: Id, resolved: string, outcome: Outcome, cfg: Config)
    requires id in v.receivers && v.receivers[id].stagedEnable && v.receivers[id].stagedSender == ""
    ensures var a, was := Activate(v, id, resolved, outcome, cfg), v.receivers[id];
            && a.sinks == v.sinks && a.events == v.events && a.preserved == v.preserved[id := ""]
            && var rr := a.receivers[id];
            && rr.activeEnable && rr.activeSender == "" && rr.activeTp == was.stagedTp
            && rr.activeAct.mode == was.stagedAct.mode && rr.activeAct.activationTime == was.stagedAct.activationTime
  {
  }

  /** At its end an activation that goes through shows the sink as the session side has it then. */
  lemma ActivationShowsTheSink(v: View, id: Id, resolved: string, outcome: Outcome, cfg: Config)
    requires id in v.receivers && Accepted(v.receivers[id], resolved)
    ensures var a := Activate(v, id, resolved, outcome, cfg);
            && id in a.receivers
            && a.receivers[id].sink == if id in a.sinks then a.sinks[id] else v.receivers[id].sink
  {
  }

  /** What the session side makes of a sink that it is handed: nothing if it refuses, a new one
      with two events, or none at all with one event if it fails half way. */
  lemma SinkOutcomes(v: View, id: Id, sink: Sink)
    requires id in v.sinks
    ensures UpdateSink(v, id, sink, Refused) == v
    ensures var r := UpdateSink(v, id, sink, Updated);
            && r == v.(sinks := r.sinks, events := v.events + [NmosView.Removed(id), NmosView.Added(id)])
            && id in r.sinks && r.sinks[id] == sink && r.sinks - {id} == v.sinks - {id}
    ensures var r := UpdateSink(v, id, sink, UpdateFailed);
            && r == v.(sinks := r.sinks, events := v.events + [NmosView.Removed(id)])
            && id !in r.sinks && r.sinks - {id} == v.sinks - {id}
  {
  }

  /** Disabling a receiver does not stop its sink: the receiver is shown as disabled, and the
      next registration shows it as enabled again if and only if the sink is connected. */
  lemma DisablingIsUndone(v: View, id: Id, resolved: string, outcome: Outcome, cfg: Config)
    requires id in v.receivers && id in v.sinks && !v.receivers[id].stagedEnable
    ensures var a := Activate(v, id, resolved, outcome, cfg);
            && a.sinks == v.sinks && a.events == v.events
            && !a.receivers[id].activeEnable && a.receivers[id].activeSender == ""
            && a.receivers[id].activeTp == v.receivers[id].stagedTp && a.preserved == v.preserved[id := ""]
            && (RegisterLocal(a, id, cfg).receivers[id].activeEnable <==> Connected(v.sinks[id]))
  {
  }

  /** An activation that cannot resolve its sender, or resolves it to something without audio,
      changes nothing at all. */
  lemma RejectedActivationChangesNothing(v: View, id: Id, resolved: string, outcome: Outcome, cfg: Config)
    requires id in v.receivers && v.receivers[id].stagedEnable && v.receivers[id].stagedSender != ""
    ensures resolved == "" || !HasAudio(resolved) ==> Activate(v, id, resolved, outcome, cfg) == v
    ensures resolved != "" && HasAudio(resolved) ==>
              var r := Activate(v, id, resolved, outcome, cfg);
              id in r.receivers && r.receivers[id].activeSender == v.receivers[id].stagedSender
  {
  }

  /** A sink changed from elsewhere reports no sender, exactly when no activation left its
      sender waiting to be restored. */
  lemma DirectUpdateReports(v: View, id: Id, sink: Sink, cfg: Config)
    requires id in v.sinks && NoEventFor(v.events, id) && NmosView.RegistryUpdated !in v.events
    ensures var d := Drain(UpdateSink(v, id, sink, Updated), cfg);
            && id in d.receivers && d.receivers[id].sink == sink
            && (d.receivers[id].activeSender == "" <==> id !in v.preserved || v.preserved[id] == "")
  {
    DrainUpdate(UpdateSink(v, id, sink, Updated), v.events, id, [], cfg);
  }

  /** One such case: the sink change of an activation is refused, and a later direct change
      of the sink is reported as a connection to the activation's sender. */
  lemma RefusedActivationLeavesItsSender(v: View, id: Id, resolved: string, sink: Sink, cfg: Config)
    requires id in v.receivers && id in v.sinks && v.events == []
    requires v.receivers[id].stagedEnable && v.receivers[id].stagedSender != ""
    requires Accepted(v.receivers[id], resolved)
    ensures var a := Activate(v, id, resolved, Refused, cfg);
            var d := Drain(UpdateSink(a, id, sink, Updated), cfg);
            && a.sinks == v.sinks && a.events == []
            && id in d.receivers && d.receivers[id].activeSender == v.receivers[id].stagedSender
  {
    var a := Activate(v, id, resolved, Refused, cfg);
    DrainUpdate(UpdateSink(a, id, sink, Updated), [], id, [], cfg);
  }

  // ----- other receivers -----

  predicate SameAt(v: View, w: View, other: Id) {
    && NmosView.Get(v.receivers, other) == NmosView.Get(w.receivers, other)
    && NmosView.Get(v.preserved, other) == NmosView.Get(w.preserved, other)
    && NmosView.Get(v.sinks, other) == NmosView.Get(w.sinks, other)
  }

  /** Two views that differ at most in what concerns `id`. */
  ghost predicate SameElsewhere(v: View, w: View, id: Id) {
    forall other: Id :: other != id ==> SameAt(v, w, other)
  }

  /** Handling the same event on both keeps them the same elsewhere. */
  lemma HandleElsewhere(v: View, w: View, ev: Event, id: Id, cfg: Config)
    requires SameElsewhere(v, w, id) && !ev.RegistryUpdated?
    ensures SameElsewhere(Handle(v, ev, cfg), Handle(w, ev, cfg), id)
  {
    hide Tps;
    forall o: Id | o != id
      ensures SameAt(Handle(v, ev, cfg), Handle(w, ev, cfg), o)
    {
      assert SameAt(v, w, o);
    }
  }

  /** An event about `id` itself changes nothing elsewhere. */
  lemma OwnEventElsewhere(v: View, w: View, ev: Event, id: Id, cfg: Config)
    requires SameElsewhere(v, w, id) && ev in {NmosView.Added(id), NmosView.Removed(id)}
    ensures SameElsewhere(v, Handle(w, ev, cfg), id)
  {
    hide Tps;
    forall o: Id | o != id
      ensures SameAt(v, Handle(w, ev, cfg), o)
    {
      assert SameAt(v, w, o);
    }
  }

  lemma TakeElsewhere(v: View, w: View, id: Id, vs: seq<Event>, ws: seq<Event>)
    requires SameElsewhere(v, w, id)
    ensures SameElsewhere(v.(events := vs), w.(events := ws), id)
  {
    forall o: Id | o != id
      ensures SameAt(v.(events := vs), w.(events := ws), o)
    {
      assert SameAt(v, w, o);
    }
  }

  lemma {:induction false} DrainElsewhere(v: View, w: View, id: Id, cfg: Config)
    requires SameElsewhere(v, w, id) && v.events <= w.events
    requires forall k :: |v.events| <= k < |w.events| ==> w.events[k] in {NmosView.Added(id), NmosView.Removed(id)}
    requires NmosView.RegistryUpdated !in v.events
    ensures SameElsewhere(Drain(v, cfg), Drain(w, cfg), id)
    decreases |w.events|
  {
    hide Handle, SameElsewhere;
    if w.events != [] {
      var ev, w0 := w.events[0], w.(events := w.events[1..]);
      if v.events == [] {
        TakeElsewhere(v, w, id, v.events, w.events[1..]);
        OwnEventElsewhere(v, w0, ev, id, cfg);
        DrainElsewhere(v, Handle(w0, ev, cfg), id, cfg);
      } else {
        var v0 := v.(events := v.events[1..]);
        TakeElsewhere(v, w, id, v.events[1..], w.events[1..]);
        assert ev == v.events[0] && ev in v.events;
        HandleElsewhere(v0, w0, ev, id, cfg);
        DrainElsewhere(Handle(v0, ev, cfg), Handle(w0, ev, cfg), id, cfg);
      }
    }
  }

  lemma ActivateElsewhere(v: View, id: Id, resolved: string, outcome: Outcome, cfg: Config)
    ensures SameElsewhere(v, Activate(v, id, resolved, outcome, cfg), id)
  {
  }

  /** Activating one receiver leaves every other one as draining alone would have left it. */
  lemma ActivationIsLocal(v: View, id: Id, resolved: string, outcome: Outcome, cfg: Config, other: Id)
    requires other != id && NmosView.RegistryUpdated !in v.events
    ensures NmosView.Get(Drain(Activate(v, id, resolved, outcome, cfg), cfg).receivers, other)
            == NmosView.Get(Drain(v, cfg).receivers, other)
  {
    ActivateElsewhere(v, id, resolved, outcome, cfg);
    var a := Activate(v, id, resolved, outcome, cfg);
    DrainElsewhere(v, a, id, cfg);
    assert SameAt(Drain(v, cfg), Drain(a, cfg), other);
  }
}
