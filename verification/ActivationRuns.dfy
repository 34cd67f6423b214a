// Receivers and activations under every interleaving.
module ActivationRuns {
  // The receiver table, the senders that activations left to be restored, and the sink table
  // with its event queue change in steps that each hold one lock. An activation is a promotion,
  // an update of the sink by whoever holds the sink table then, and a copy of the sink into the
  // receiver, with any other steps before, between and after.

  import opened Arithmetic
  import opened Text
  import NmosView
  import opened Activation

  datatype Full = Full(core: NmosView.State<Sink>, receivers: map<Id, Receiver>, preserved: map<Id, string>)

  datatype Step =
    | Core(step: NmosView.Step<Sink>)
    | Stage(id: Id, p: Promotion)      // a PATCH of the staged state
    | Promoting(id: Id, p: Promotion)  // with the staged state as it was read before

  predicate Enabled(f: Full, step: Step) {
    match step
    case Core(c) => NmosView.Enabled(f.core, c)
    case Stage(id, _) => id in f.receivers
    case Promoting(id, _) => id in f.receivers
  }

  function Restaged(rr: Receiver, p: Promotion): (r: Receiver) {
    rr.(stagedEnable := p.enable, stagedSender := p.sender, stagedTp := p.tp,
        stagedAct := rr.stagedAct.(mode := p.mode, activationTime := p.activationTime))
  }

  function Shown(receivers: map<Id, Receiver>, copy: NmosView.Copy<Sink>): (r: map<Id, Receiver>) {
    if copy.id in receivers then receivers[copy.id := receivers[copy.id].(sink := copy.entry.sink)] else receivers
  }

  function Apply(f: Full, step: Step, cfg: Config): (f': Full)
    requires Enabled(f, step)
  {
    match step
    case Core(c) =>
      var f' := f.(core := NmosView.Apply(f.core, c));
      (match c
       case Write =>
         var (id, sink) := (f.core.worker.id, f.core.worker.entry.sink);
         var rr := Registered(EntryOf(f.receivers, id), sink, SenderOf(f.preserved, id), cfg);
         f'.(receivers := f.receivers[id := rr], preserved := f.preserved - {id})
       case Drop => f'.(receivers := f.receivers - {f.core.worker.id})
       case CopyBack(k) => f'.(receivers := Shown(f.receivers, f.core.copies[k]))
       case _ => f')
    case Stage(id, p) => f.(receivers := f.receivers[id := Restaged(f.receivers[id], p)])
    case Promoting(id, p) =>
      f.(receivers := f.receivers[id := Promoted(f.receivers[id], p)], preserved := f.preserved[id := Sender(p)])
  }

  predicate Initial(f: Full, cfg: Config) {
    && NmosView.Initial(f.core) && f.preserved == map[]
    && f.receivers == map id | id in f.core.table :: Registered(BLANK, f.core.table[id].sink, "", cfg)
  }

  /** Every step is enabled when its turn comes. */
  predicate Possible(f: Full, steps: seq<Step>, cfg: Config)
    decreases |steps|
  {
    steps == [] || (Enabled(f, steps[0]) && Possible(Apply(f, steps[0], cfg), steps[1..], cfg))
  }

  function After(f: Full, steps: seq<Step>, cfg: Config): (g: Full)
    requires Possible(f, steps, cfg)
    decreases |steps|
  {
    if steps == [] then f else After(Apply(f, steps[0], cfg), steps[1..], cfg)
  }

  // ----- the receivers mirror the view -----

  predicate MirrorsAt(f: Full, id: Id) {
    && (id in f.receivers <==> id in f.core.view)
    && (id in f.receivers ==> f.receivers[id].sink == f.core.view[id].sink)
  }

  ghost predicate Mirrors(f: Full) {
    forall id :: MirrorsAt(f, id)
  }

  ghost predicate Inv(f: Full) { NmosView.Inv(f.core) && Mirrors(f) }

  lemma StillMirrors(f: Full, step: Step, id: Id, cfg: Config)
    requires Enabled(f, step) && MirrorsAt(f, id)
    ensures MirrorsAt(Apply(f, step, cfg), id)
  {
    hide NmosView.Apply, Tps;
    if step.Core? {
      NmosView.WhatChanges(f.core, step.step);
    }
  }

  lemma AppliesCore(f: Full, step: Step, cfg: Config)
    requires Enabled(f, step)
    ensures Apply(f, step, cfg).core == if step.Core? then NmosView.Apply(f.core, step.step) else f.core
  {
    hide NmosView.Apply, Tps;
  }

  lemma {:induction false} ApplyKeeps(f: Full, step: Step, cfg: Config)
    requires Enabled(f, step) && Inv(f)
    ensures Inv(Apply(f, step, cfg))
  {
    hide NmosView.Inv, NmosView.Apply, MirrorsAt, Apply;
    forall id
      ensures MirrorsAt(Apply(f, step, cfg), id)
    {
      StillMirrors(f, step, id, cfg);
    }
    AppliesCore(f, step, cfg);
    if step.Core? {
      NmosView.ApplyKeeps(f.core, step.step);
    }
  }

  lemma {:induction false} InitialFits(f: Full, cfg: Config)
    requires Initial(f, cfg)
    ensures Inv(f)
  {
    NmosView.InitialFits(f.core);
  }

  lemma {:induction false} RunKeeps(f: Full, steps: seq<Step>, cfg: Config)
    requires Possible(f, steps, cfg) && Inv(f)
    ensures Inv(After(f, steps, cfg))
    decreases |steps|
  {
    if steps != [] {
      ApplyKeeps(f, steps[0], cfg);
      RunKeeps(Apply(f, steps[0], cfg), steps[1..], cfg);
    }
  }

  // ----- counting along a run -----

  predicate Writes(f: Full, step: Step, id: Id)
    requires Enabled(f, step)
  {
    step.Core? && NmosView.Writes(f.core, step.step, id)
  }

  predicate Drops(f: Full, step: Step, id: Id)
    requires Enabled(f, step)
  {
    step.Core? && NmosView.Drops(f.core, step.step, id)
  }

  predicate Asks(f: Full, step: Step, id: Id)
    requires Enabled(f, step)
  {
    step.Core? && NmosView.Asks(f.core, step.step, id)
  }

  /** How often the worker has written this receiver. */
  function Written(f: Full, steps: seq<Step>, id: Id, cfg: Config): (n: nat)
    requires Possible(f, steps, cfg)
    decreases |steps|
  {
    if steps == [] then 0
    else AsCount(Writes(f, steps[0], id)) + Written(Apply(f, steps[0], cfg), steps[1..], id, cfg)
  }

  /** How often a registration of this sink was asked for: it was stored again, or all were. */
  function Asked(f: Full, steps: seq<Step>, id: Id, cfg: Config): (n: nat)
    requires Possible(f, steps, cfg)
    decreases |steps|
  {
    if steps == [] then 0
    else AsCount(Asks(f, steps[0], id)) + Asked(Apply(f, steps[0], cfg), steps[1..], id, cfg)
  }

  /** Whether the worker has removed this receiver in between. */
  predicate Dropped(f: Full, steps: seq<Step>, id: Id, cfg: Config)
    requires Possible(f, steps, cfg)
    decreases |steps|
  {
    steps != [] && (Drops(f, steps[0], id) || Dropped(Apply(f, steps[0], cfg), steps[1..], id, cfg))
  }

  predicate Stays(f: Full, steps: seq<Step>, id: Id, cfg: Config)
    requires Possible(f, steps, cfg)
    decreases |steps|
  {
    id in f.core.table && (steps == [] || Stays(Apply(f, steps[0], cfg), steps[1..], id, cfg))
  }

  predicate Unpromoted(steps: seq<Step>, id: Id) {
    forall k :: 0 <= k < |steps| ==> !(steps[k].Promoting? && steps[k].id == id)
  }

  /** Every registration asked for, before or during the run, is one write by its end or is
      still owed. */
  lemma {:induction false} WritesAreOwed(f: Full, steps: seq<Step>, id: Id, cfg: Config)
    requires Possible(f, steps, cfg) && Stays(f, steps, id, cfg)
    ensures Written(f, steps, id, cfg) + NmosView.Owed(After(f, steps, cfg).core, id)
            == NmosView.Owed(f.core, id) + Asked(f, steps, id, cfg)
    decreases |steps|
  {
    hide NmosView.Owed, NmosView.Apply, Tps;
    if steps != [] {
      if steps[0].Core? {
        NmosView.WritesAreOwed(f.core, steps[0].step, id);
      }
      WritesAreOwed(Apply(f, steps[0], cfg), steps[1..], id, cfg);
    }
  }

  // ----- what a receiver reports after a promotion -----

  /** After `n` writes since the promotion: the first one takes the preserved sender, and every
      later one clears it. */
  predicate Carries(f: Full, id: Id, sender: string, n: nat) {
    && NmosView.Get(f.preserved, id) == (if n == 0 then Some(sender) else None)
    && (id in f.receivers ==> f.receivers[id].activeSender == if n <= 1 then sender else "")
  }

  lemma CarriesOn(f: Full, step: Step, id: Id, sender: string, n: nat, cfg: Config)
    requires Enabled(f, step) && Carries(f, id, sender, n) && Unpromoted([step], id)
    ensures Carries(Apply(f, step, cfg), id, sender, n + AsCount(Writes(f, step, id)))
  {
    hide NmosView.Apply, Tps;
    assert [step][0] == step;
  }

  lemma {:induction false} CarriesAlong(f: Full, steps: seq<Step>, id: Id, sender: string, n: nat, cfg: Config)
    requires Possible(f, steps, cfg) && Carries(f, id, sender, n) && Unpromoted(steps, id)
    ensures Carries(After(f, steps, cfg), id, sender, n + Written(f, steps, id, cfg))
    decreases |steps|
  {
    hide Carries, Apply, Enabled;
    if steps != [] {
      var m := n + AsCount(Writes(f, steps[0], id));
      assert [steps[0]][0] == steps[0];
      CarriesOn(f, steps[0], id, sender, n, cfg);
      CarriesAlong(Apply(f, steps[0], cfg), steps[1..], id, sender, m, cfg);
    }
  }

  /** Until the first write a receiver reports what was promoted, and from then on what the
      sink last registered gives; the record of the activation lasts until it is dropped. */
  predicate Reports(f: Full, id: Id, p: Promotion, written: bool, dropped: bool, cfg: Config) {
    id in f.receivers ==>
      var rr := f.receivers[id];
      && (!written ==> rr.activeEnable == p.enable && rr.activeTp == p.tp && !dropped)
      && (written ==> id in f.core.registered && rr.activeEnable == Connected(f.core.registered[id].sink)
                      && rr.activeTp == Tps(f.core.registered[id].sink, cfg))
      && (if dropped then rr.activeAct == NO_ACT
          else rr.activeAct.mode == p.mode && rr.activeAct.activationTime == p.activationTime)
  }

  lemma ReportsOn(f: Full, step: Step, id: Id, p: Promotion, written: bool, dropped: bool, cfg: Config)
    requires Enabled(f, step) && Unpromoted([step], id)
    requires Reports(f, id, p, written, dropped, cfg) && (id in f.receivers || dropped)
    ensures Reports(Apply(f, step, cfg), id, p, written || Writes(f, step, id), dropped || Drops(f, step, id), cfg)
    ensures id in Apply(f, step, cfg).receivers || dropped || Drops(f, step, id)
  {
    hide NmosView.Apply, Tps;
    assert [step][0] == step;
    if step.Core? {
      NmosView.WhatChanges(f.core, step.step);
    }
  }

  lemma {:induction false} ReportsAlong(f: Full, steps: seq<Step>, id: Id, p: Promotion, written: bool, dropped: bool, cfg: Config)
    requires Possible(f, steps, cfg) && Unpromoted(steps, id)
    requires Reports(f, id, p, written, dropped, cfg) && (id in f.receivers || dropped)
    ensures Reports(After(f, steps, cfg), id, p, written || Written(f, steps, id, cfg) > 0,
                    dropped || Dropped(f, steps, id, cfg), cfg)
    decreases |steps|
  {
    hide Reports, Apply, Enabled;
    if steps != [] {
      assert [steps[0]][0] == steps[0];
      ReportsOn(f, steps[0], id, p, written, dropped, cfg);
      ReportsAlong(Apply(f, steps[0], cfg), steps[1..], id, p, written || Writes(f, steps[0], id),
                   dropped || Drops(f, steps[0], id), cfg);
    }
  }

  // ----- the two theorems -----

  /** What `id` reports `steps` after it was promoted with `p`. */
  lemma AfterPromotion(f: Full, id: Id, p: Promotion, steps: seq<Step>, cfg: Config)
    requires Enabled(f, Promoting(id, p))
    requires Possible(Apply(f, Promoting(id, p), cfg), steps, cfg) && Unpromoted(steps, id)
    ensures var f' := Apply(f, Promoting(id, p), cfg);
            var g := After(f', steps, cfg);
            var n := Written(f', steps, id, cfg);
            && Reports(g, id, p, n > 0, Dropped(f', steps, id, cfg), cfg)
            && Carries(g, id, Sender(p), n)
  {
    var f' := Apply(f, Promoting(id, p), cfg);
    assert Carries(f', id, Sender(p), 0) && Reports(f', id, p, false, false, cfg);
    hide Carries, Reports;
    CarriesAlong(f', steps, id, Sender(p), 0, cfg);
    ReportsAlong(f', steps, id, p, false, false, cfg);
  }

  /** What was staged is what is promoted, as long as nothing is staged in between; staging
      itself shows nowhere else. */
  lemma StagedIsPromoted(f: Full, id: Id, p: Promotion, cfg: Config)
    requires Enabled(f, Stage(id, p))
    ensures var f1 := Apply(f, Stage(id, p), cfg);
            && f1.core == f.core && f1.preserved == f.preserved && f1.receivers.Keys == f.receivers.Keys
            && (forall i :: i in f.receivers && i != id ==> f1.receivers[i] == f.receivers[i])
            && var was, rr := f.receivers[id], f1.receivers[id];
            && Staged(rr) == p && rr.sink == was.sink && rr.activeEnable == was.activeEnable
            && rr.activeSender == was.activeSender && rr.activeTp == was.activeTp && rr.activeAct == was.activeAct
            && var f2 := Apply(f1, Promoting(id, Staged(rr)), cfg);
            && f2.core == f.core && f2.preserved == f.preserved[id := if p.enable then p.sender else ""]
            && var on := f2.receivers[id];
            && on.activeEnable == p.enable && on.activeSender == (if p.enable then p.sender else "")
            && on.activeTp == p.tp && on.activeAct.mode == p.mode && on.activeAct.activationTime == p.activationTime
            && on.stagedEnable == p.enable && on.stagedSender == p.sender && on.stagedTp == p.tp && on.sink == was.sink
  {
  }

  /** Nothing that would make the worker write this receiver is queued or in its hands. */
  predicate NothingUnderWay(s: NmosView.State<Sink>, id: Id) {
    && NmosView.Added(id) !in s.queue && NmosView.RegistryUpdated !in s.queue && !s.worker.Resync?
    && (s.worker.Looking? || s.worker.Writing? ==> s.worker.id != id && id !in s.worker.todo)
  }

  lemma {:induction false} NoTimes(ids: seq<Id>, id: Id)
    ensures NmosView.Times(ids, id) == 0 <==> id !in ids
  {
    if ids != [] {
      NoTimes(ids[1..], id);
      assert ids == [ids[0]] + ids[1..];
    }
  }

  lemma {:induction false} NoRegistrations(queue: seq<Event>, id: Id)
    ensures NmosView.Registrations(queue, id) == 0 <==> NmosView.Added(id) !in queue && NmosView.RegistryUpdated !in queue
  {
    if queue != [] {
      NoRegistrations(queue[1..], id);
      assert queue == [queue[0]] + queue[1..];
    }
  }

  lemma OwedNothing(s: NmosView.State<Sink>, id: Id)
    ensures NmosView.Owed(s, id) == 0 <==> NothingUnderWay(s, id)
  {
    hide NmosView.Times, NmosView.Registrations;
    NoRegistrations(s.queue, id);
    if s.worker.Looking? || s.worker.Writing? {
      NoTimes([s.worker.id] + s.worker.todo, id);
      assert id in [s.worker.id] + s.worker.todo <==> id == s.worker.id || id in s.worker.todo;
    }
  }

  /** While the sink stays in the table, by the time the worker has caught up it has written the
      receiver once for every registration under way at the promotion or asked for since. */
  lemma DrainedCounts(start: Full, before: seq<Step>, id: Id, p: Promotion, steps: seq<Step>,
                                         cfg: Config)
    requires Initial(start, cfg) && Possible(start, before, cfg)
    requires Enabled(After(start, before, cfg), Promoting(id, p))
    requires Possible(Apply(After(start, before, cfg), Promoting(id, p), cfg), steps, cfg)
    requires Stays(Apply(After(start, before, cfg), Promoting(id, p), cfg), steps, id, cfg)
    ensures var f := After(start, before, cfg);
            var f' := Apply(f, Promoting(id, p), cfg);
            var g := After(f', steps, cfg);
            NmosView.Drained(g.core) ==>
              && Written(f', steps, id, cfg) == NmosView.Owed(f.core, id) + Asked(f', steps, id, cfg)
              && id in g.receivers && id in g.core.table && g.core.registered == g.core.table
  {
    var f := After(start, before, cfg);
    var f' := Apply(f, Promoting(id, p), cfg);
    var g := After(f', steps, cfg);
    hide Initial, Apply, Enabled, NmosView.Owed, Inv;
    WritesAreOwed(f', steps, id, cfg);
    PromotionOwes(f, id, p, cfg);
    if NmosView.Drained(g.core) {
      NmosView.DrainedOwesNothing(g.core, id);
      StaysToTheEnd(f', steps, id, cfg);
      InitialFits(start, cfg);
      RunKeeps(start, before, cfg);
      PromotionKeeps(f, id, p, cfg);
      RunKeeps(f', steps, cfg);
      DrainedHasReceiver(g, id);
    }
  }

  /** In any run, for a sink that stays in the table and is promoted once: when the worker has
      caught up, the receiver carries the promoted sender if and only if at most one
      registration of the sink was under way at the promotion or asked for since. For an
      activation that changes its own sink that means nothing under way and nothing else asked
      for. Otherwise the sender stays cleared until the next promotion. */
  lemma SenderKeptExactly(start: Full, before: seq<Step>, id: Id, p: Promotion, steps: seq<Step>,
                                             cfg: Config)
    requires Initial(start, cfg) && Possible(start, before, cfg)
    requires Enabled(After(start, before, cfg), Promoting(id, p))
    requires Possible(Apply(After(start, before, cfg), Promoting(id, p), cfg), steps, cfg)
    requires Unpromoted(steps, id) && Stays(Apply(After(start, before, cfg), Promoting(id, p), cfg), steps, id, cfg)
    ensures var f := After(start, before, cfg);
            var f' := Apply(f, Promoting(id, p), cfg);
            var g, asked := After(f', steps, cfg), Asked(f', steps, id, cfg);
            NmosView.Drained(g.core) ==>
              && id in g.receivers
              && g.receivers[id].activeSender == (if NmosView.Owed(f.core, id) + asked <= 1 then Sender(p) else "")
              && (asked >= 1 && Sender(p) != "" ==>
                    (g.receivers[id].activeSender == Sender(p) <==> NothingUnderWay(f.core, id) && asked == 1))
  {
    var f := After(start, before, cfg);
    hide Initial, Apply, Enabled, NothingUnderWay, NmosView.Owed, Reports;
    AfterPromotion(f, id, p, steps, cfg);
    DrainedCounts(start, before, id, p, steps, cfg);
    OwedNothing(f.core, id);
  }

  /** Under the same conditions, the enable flag and the transport parameters are those of the
      sink as soon as one registration was under way or asked for, and as promoted otherwise:
      disabling the receiver of a connected sink lasts until the next registration. */
  lemma StateKeptExactly(start: Full, before: seq<Step>, id: Id, p: Promotion, steps: seq<Step>,
                                            cfg: Config)
    requires Initial(start, cfg) && Possible(start, before, cfg)
    requires Enabled(After(start, before, cfg), Promoting(id, p))
    requires Possible(Apply(After(start, before, cfg), Promoting(id, p), cfg), steps, cfg)
    requires Unpromoted(steps, id) && Stays(Apply(After(start, before, cfg), Promoting(id, p), cfg), steps, id, cfg)
    ensures var f := After(start, before, cfg);
            var f' := Apply(f, Promoting(id, p), cfg);
            var g, asked := After(f', steps, cfg), Asked(f', steps, id, cfg);
            NmosView.Drained(g.core) ==>
              && id in g.receivers && id in g.core.table
              && var rr, sink := g.receivers[id], g.core.table[id].sink;
              && (if NothingUnderWay(f.core, id) && asked == 0
                  then rr.activeEnable == p.enable && rr.activeTp == p.tp
                  else rr.activeEnable == Connected(sink) && rr.activeTp == Tps(sink, cfg))
              && (if Dropped(f', steps, id, cfg) then rr.activeAct == NO_ACT
                  else rr.activeAct.mode == p.mode && rr.activeAct.activationTime == p.activationTime)
  {
    var f := After(start, before, cfg);
    hide Initial, Apply, Enabled, NothingUnderWay, NmosView.Owed, Carries, Tps;
    AfterPromotion(f, id, p, steps, cfg);
    DrainedCounts(start, before, id, p, steps, cfg);
    OwedNothing(f.core, id);
  }

  lemma PromotionOwes(f: Full, id: Id, p: Promotion, cfg: Config)
    requires Enabled(f, Promoting(id, p))
    ensures Apply(f, Promoting(id, p), cfg).core == f.core
  {
  }

  lemma PromotionKeeps(f: Full, id: Id, p: Promotion, cfg: Config)
    requires Enabled(f, Promoting(id, p)) && Inv(f)
    ensures Inv(Apply(f, Promoting(id, p), cfg))
  {
    ApplyKeeps(f, Promoting(id, p), cfg);
  }

  lemma {:induction false} StaysToTheEnd(f: Full, steps: seq<Step>, id: Id, cfg: Config)
    requires Possible(f, steps, cfg) && Stays(f, steps, id, cfg)
    ensures id in After(f, steps, cfg).core.table
    decreases |steps|
  {
    if steps != [] {
      StaysToTheEnd(Apply(f, steps[0], cfg), steps[1..], id, cfg);
    }
  }

  lemma DrainedHasReceiver(g: Full, id: Id)
    requires Inv(g) && NmosView.Drained(g.core) && id in g.core.table
    ensures id in g.receivers && g.core.registered == g.core.table
  {
    NmosView.DrainedIsSettled(g.core);
    assert MirrorsAt(g, id);
  }
}
