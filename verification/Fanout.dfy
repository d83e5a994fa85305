/** The engine and its observers together: serial updates of core/state.go issue the notifications
    that core/observer.go fans out, while everything else interleaves freely. */
module Fanout {
  import opened Types
  import opened StateEngine
  import opened Observers

  /** `outbox` are the events of the latest update that have still to be notified. */
  datatype Both = Both(engine: State, sys: Sys, outbox: seq<Event>)

  /** The next update starts when the notifications of the last one are over. */
  ghost predicate UpdateStep(c: Both, c': Both) {
    && c.outbox == [] && c.sys.visits == map[] && c'.sys == c.sys
    && (exists op: Op, err :: op.Update? && Updates(c.engine, op, c'.engine, err))
    && c'.outbox == c'.engine.events[|c.engine.events|..]
  }

  /** generateEvents calls Notify for the next event. */
  ghost predicate EmitStep(c: Both, c': Both) {
    && c.outbox != [] && c.sys.visits == map[] && c'.engine == c.engine && c'.outbox == c.outbox[1..]
    && Enabled(c.sys, NotifyBegin(0, c.outbox[0])) && c'.sys == Next(c.sys, NotifyBegin(0, c.outbox[0]))
  }

  /** Anything else that happens among the observers. */
  ghost predicate ObserverStep(c: Both, c': Both, step: Step) {
    && !step.NotifyBegin? && Enabled(c.sys, step) && c'.sys == Next(c.sys, step)
    && c'.engine == c.engine && c'.outbox == c.outbox
  }

  ghost predicate BothStep(c: Both, c': Both) {
    UpdateStep(c, c') || EmitStep(c, c') || exists step :: ObserverStep(c, c', step)
  }

  ghost predicate BothTrace(states: seq<Both>, queueSize: nat) {
    && states != [] && states[0] == Both(INITIAL, Observers.Initial(queueSize), [])
    && forall i :: 0 <= i < |states| - 1 ==> BothStep(states[i], states[i + 1])
  }

  /** The engine's events are those notified and then those in the outbox, until Close; notifications
      never overlap. */
  ghost predicate BothInv(c: Both) {
    && Inv(c.sys) && Replayable(c.engine) && !c.sys.overlap
    && (!c.sys.closed ==> c.engine.events == c.sys.log + c.outbox)
  }

  lemma BothStepKeeps(c: Both, c': Both)
    requires BothInv(c) && BothStep(c, c')
    ensures BothInv(c')
  {
    hide Inv, Replayable, Updates;
    if UpdateStep(c, c') {
      var op: Op, err :| op.Update? && Updates(c.engine, op, c'.engine, err);
      UpdateReplayable(c.engine, op, c'.engine, err);
      UpdateExtends(c.engine, op, c'.engine, err);
      assert c.sys.log + [] == c.sys.log;
    } else if EmitStep(c, c') {
      NextKeepsInv(c.sys, NotifyBegin(0, c.outbox[0]));
      assert c.sys.log + c.outbox == c.sys.log + [c.outbox[0]] + c.outbox[1..];
    } else {
      var step :| ObserverStep(c, c', step);
      NextKeepsInv(c.sys, step);
      QuietStep(c.sys, step);
    }
  }

  lemma UpdateExtends(s: State, op: Op, t: State, err: Option<string>)
    requires op.Update? && Updates(s, op, t, err)
    ensures |s.events| <= |t.events| && t.events == s.events + t.events[|s.events|..]
  {
  }

  lemma QuietStep(s: Sys, step: Step)
    requires Enabled(s, step) && !step.NotifyBegin?
    ensures var t := Next(s, step); t.log == s.log && t.overlap == s.overlap && (s.closed ==> t.closed)
  {
  }

  lemma {:induction false} BothTraceKeeps(states: seq<Both>, queueSize: nat, n: nat)
    requires BothTrace(states, queueSize) && n < |states|
    ensures BothInv(states[n])
  {
    hide BothInv, BothStep;
    if n == 0 {
      BothStart(queueSize);
    } else {
      BothTraceKeeps(states, queueSize, n - 1);
      assert BothStep(states[n - 1], states[n - 1 + 1]);
      BothStepKeeps(states[n - 1], states[n]);
    }
  }

  lemma BothStart(queueSize: nat)
    ensures BothInv(Both(INITIAL, Observers.Initial(queueSize), []))
  {
    InitialInv(queueSize);
  }

  /** In every reachable state: a subscription registered before the first event, still registered
      and active, that has dropped nothing and has an empty queue, while no notification is under way or
      due, has been delivered every event, and replaying them gives the engine's data. */
  lemma CaughtUpObserver(states: seq<Both>, queueSize: nat, n: nat, id: nat)
    requires BothTrace(states, queueSize) && n < |states|
    requires var c := states[n];
             && id in c.sys.subs && c.sys.visits == map[] && c.outbox == [] && !c.sys.closed
             && var sub := c.sys.subs[id];
                id in c.sys.registered && sub.active && sub.since == 0 && sub.queue == [] && Dropped(sub.offered) == 0
    ensures var c := states[n];
            && c.sys.subs[id].delivered == c.engine.events
            && Equivalent(Replay(map[], c.sys.subs[id].delivered), c.engine.data)
    ensures var c := states[n]; var rebuilt := Replay(map[], c.sys.subs[id].delivered);
            && rebuilt.Keys == c.engine.data.Keys
            && forall k :: k in rebuilt ==>
                 rebuilt[k].raw == c.engine.data[k].raw && rebuilt[k].typ == c.engine.data[k].typ
  {
    hide BothTrace, Replay;
    BothTraceKeeps(states, queueSize, n);
    Caught(states[n], id);
  }

  lemma Caught(c: Both, id: nat)
    requires BothInv(c) && id in c.sys.subs && c.sys.visits == map[] && c.outbox == [] && !c.sys.closed
    requires var sub := c.sys.subs[id];
             id in c.sys.registered && sub.active && sub.since == 0 && sub.queue == [] && Dropped(sub.offered) == 0
    ensures c.sys.subs[id].delivered == c.engine.events
    ensures Equivalent(Replay(map[], c.sys.subs[id].delivered), c.engine.data)
  {
    hide Registry, Notification, Running, Equivalent;
    var sub := c.sys.subs[id];
    assert UpToDate(c.sys, id) && !Reaching(c.sys, id);
    SubsAt(c.sys, id);
    TakenSubsequence(sub.offered);
    assert c.sys.log[0..] == c.sys.log && c.sys.log + [] == c.sys.log;
    assert Events(sub.offered) + [] == Events(sub.offered);
    assert sub.delivered + [] == sub.delivered;
  }
}
