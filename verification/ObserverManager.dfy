/** The observer manager itself, one call at a time. Each call states the whole new state, and that a
    run of the step system leads to it. */
module ObserverManager {
  import opened Types
  import opened StateEngine
  import opened Observers
  import opened ObserverClose

  /** A whole Subscribe call on an open manager. */
  function Subscribed(s: Sys): Sys {
    var id := s.nextID + 1;
    s.(nextID := id, registered := s.registered + {id}, wg := s.wg + 1,
       subs := s.subs[id := FreshSub(|s.log|).(started := true)])
  }

  /** A whole Notify call: every registered, active subscription is sent the event once. */
  ghost function NotifiedAll(s: Sys, e: Event): Sys {
    s.(log := s.log + [e],
       subs := Tabulate(s.subs.Keys, id requires id in s.subs =>
                 if id in s.registered then Offered(s.subs[id], e, s.queueSize) else s.subs[id]))
  }

  /** The active check and the non-blocking send of one Range callback. */
  function Offered(sub: Sub, e: Event, queueSize: nat): Sub {
    if sub.active then Accept(sub, e, queueSize) else sub
  }

  /** A whole unsubscription. */
  function Unsubscribed(s: Sys, id: nat): Sys {
    if id !in s.registered || id !in s.subs then s else
    s.(registered := s.registered - {id}, subs := s.subs[id := Closed(s.subs[id])])
  }

  function Closed(sub: Sub): Sub { Cancelled(Inactive(sub)) }

  /** A whole Close call up to its wait: every registered subscription is cancelled. */
  ghost function ClosedAll(s: Sys): Sys {
    s.(closed := true, swept := true,
       subs := Tabulate(s.subs.Keys, id requires id in s.subs =>
                 if id in s.registered then Closed(s.subs[id]) else s.subs[id]))
  }

  /** A Range under way that applies f to each registered subscription, with `todo` still to visit. */
  ghost predicate Ranged(f: Sub -> Sub, before: map<nat, Sub>, now: map<nat, Sub>, registered: set<nat>,
                         todo: set<nat>)
  {
    && now.Keys == before.Keys
    && forall id :: id in before ==> now[id] == if id in registered && id !in todo then f(before[id]) else before[id]
  }

  lemma RangedStart(f: Sub -> Sub, before: map<nat, Sub>, registered: set<nat>)
    ensures Ranged(f, before, before, registered, registered)
  {
  }

  lemma RangedStep(f: Sub -> Sub, before: map<nat, Sub>, now: map<nat, Sub>, registered: set<nat>,
                   todo: set<nat>, id: nat)
    requires Ranged(f, before, now, registered, todo) && id in todo && id in now && todo <= registered
    ensures Ranged(f, before, now[id := f(now[id])], registered, todo - {id})
  {
  }

  class Manager {
    var subs: map<nat, Sub>
    var registered: set<nat>
    var nextID: nat
    var closed: bool
    var wg: int
    var log: seq<Event>      // the events notified so far
    const queueSize: nat

    ghost function St(): Sys
      reads this
    {
      Sys({}, subs, registered, {}, {}, nextID, queueSize, closed, {}, None, closed, wg, log, map[], false, false)
    }

    /** Between calls none is under way. */
    ghost predicate Valid()
      reads this
    {
      Inv(St()) && AllReturned(St())
    }

    constructor (size: nat)
      ensures Valid() && St() == Initial(size)
    {
      subs, registered, nextID, closed, wg, log := map[], {}, 0, false, 0, [];
      queueSize := size;
      new;
      InitialInv(size);
    }

    method Subscribe() returns (id: Option<nat>)
      requires Valid()
      modifies this
      ensures Valid() && St() == if closed then old(St()) else Subscribed(old(St()))
      ensures Reaches(old(St()), St())
      ensures id == if closed then None else Some(nextID)
      ensures !closed ==>
                && nextID == old(nextID) + 1 && registered == old(registered) + {nextID}
                && subs == old(subs)[nextID := Sub([], true, false, true, false, [], [], |old(log)|)]
                && log == old(log) && wg == old(wg) + 1
    {
      hide Inv, Reaches;
      ReachesSelf(St());
      if closed { return None; }
      SubscribeSteps(St());
      ReachesKeepsInv(St(), Subscribed(St()));
      nextID := nextID + 1;
      registered := registered + {nextID};
      wg := wg + 1;
      subs := subs[nextID := FreshSub(|log|).(started := true)];
      id := Some(nextID);
    }

    method Unsubscribe(id: nat)
      requires Valid()
      modifies this
      ensures Valid() && St() == Unsubscribed(old(St()), id)
      ensures registered == old(registered) - {id} && subs.Keys == old(subs).Keys
      ensures log == old(log) && closed == old(closed)
      ensures forall x :: x in subs ==>
                subs[x] == if x == id && id in old(registered) then old(subs)[x].(active := false, cancelled := true)
                           else old(subs)[x]
      ensures Reaches(old(St()), St())
    {
      hide Inv, Reaches;
      ReachesSelf(St());
      if id in registered {
        RegisteredExist(St(), id);
        UnsubscribeSteps(St(), id);
        ReachesKeepsInv(St(), Unsubscribed(St(), id));
        registered := registered - {id};
        subs := subs[id := subs[id].(active := false)];
        subs := subs[id := subs[id].(cancelled := true)];
        assert St() == Unsubscribed(old(St()), id);
      }
    }

    method Notify(event: Event)
      requires Valid()
      modifies this
      ensures Valid() && St() == if closed then old(St()) else NotifiedAll(old(St()), event)
      ensures closed == old(closed) && registered == old(registered) && subs.Keys == old(subs).Keys
      ensures log == if closed then old(log) else old(log) + [event]
      ensures forall id :: id in subs ==>
                var sub := old(subs)[id];
                subs[id] == if closed || id !in registered || !sub.active then sub
                            else if |sub.queue| < queueSize then
                              sub.(queue := sub.queue + [event], offered := sub.offered + [Offer(event, true)])
                            else sub.(offered := sub.offered + [Offer(event, false)])
      ensures Reaches(old(St()), St())
    {
      hide Inv, Reaches, Accept, Next, Enabled, During, Ranged, AllReturned;
      ReachesSelf(St());
      if closed { return; }
      ghost var before := St();
      BeginStep(before, event);
      log := log + [event];
      var todo := registered;
      ghost var offer := (sub: Sub) => Offered(sub, event, queueSize);
      RangedStart(offer, subs, registered);
      while todo != {}
        invariant todo <= registered && Reaches(before, During(before, subs, event, todo))
        invariant Ranged(offer, before.subs, subs, registered, todo)
        invariant St() == before.(log := before.log + [event], subs := subs)
        decreases |todo|
      {
        var id :| id in todo;
        OfferSteps(before, subs, event, todo, id);
        RangedStep(offer, before.subs, subs, registered, todo, id);
        ghost var was := subs;
        if subs[id].active { subs := subs[id := TrySend(subs[id], event)]; }
        assert subs == was[id := Offered(was[id], event, queueSize)];
        todo := todo - {id};
      }
      EndStep(before, subs, event);
      NotifiedAllRanged(before, subs, event, offer);
      NotifiedEach(before, subs, event, offer);
      SameStarted(offer, before, subs, event);
      ReachesKeepsInv(before, St());
    }

    /** The non-blocking send. */
    function TrySend(sub: Sub, event: Event): (r: Sub)
      ensures r == Accept(sub, event, queueSize)
    {
      var room := |sub.queue| < queueSize;
      sub.(queue := if room then sub.queue + [event] else sub.queue,
           offered := sub.offered + [Offer(event, room)])
    }

    /** One pass of a processor's select loop; `done` picks the ctx.Done() branch when it is ready. */
    method ProcessOne(id: nat, done: bool) returns (ran: bool)
      requires Valid() && id in subs && Runs(subs[id])
      modifies this
      ensures Valid()
      ensures St() == if done && old(subs[id].cancelled) then Next(old(St()), Exit(id))
                      else if old(subs[id].queue) != [] then Next(old(St()), Process(id))
                      else old(St())
      ensures ran <==> St() != old(St())
      ensures ran <==> (done && old(subs)[id].cancelled) || old(subs)[id].queue != []
      ensures ran ==>
                var sub := old(subs)[id];
                && subs == old(subs)[id :=
                     if done && sub.cancelled then sub.(exited := true)
                     else sub.(delivered := sub.delivered + [sub.queue[0]], queue := sub.queue[1..])]
                && wg == (if done && sub.cancelled then old(wg) - 1 else old(wg))
                && registered == old(registered) && log == old(log) && closed == old(closed) && nextID == old(nextID)
    {
      hide Inv;
      if done && subs[id].cancelled {
        NextKeepsInv(St(), Exit(id));
        subs := subs[id := subs[id].(exited := true)];
        wg := wg - 1;
        return true;
      }
      if subs[id].queue == [] { return false; }
      NextKeepsInv(St(), Process(id));
      var event := subs[id].queue[0];
      subs := subs[id := subs[id].(delivered := subs[id].delivered + [event], queue := subs[id].queue[1..])];
      ran := true;
    }

    /** Close up to its wait: from then on the manager only drains. */
    method Close()
      requires Valid()
      modifies this
      ensures Valid() && St() == if old(closed) then old(St()) else ClosedAll(old(St()))
      ensures closed && registered == old(registered) && subs.Keys == old(subs).Keys && log == old(log)
      ensures forall id :: id in subs ==>
                subs[id] == if !old(closed) && id in registered then old(subs)[id].(active := false, cancelled := true)
                            else old(subs)[id]
      ensures Reaches(old(St()), St())
    {
      hide Inv, Reaches, Next, Enabled, Closing, Ranged, AllReturned, Closed;
      ReachesSelf(St());
      if closed { return; }
      ghost var before := St();
      CloseStep(before);
      closed := true;
      var todo := registered;
      RangedStart(Closed, subs, registered);
      while todo != {}
        invariant todo <= registered && Reaches(before, Closing(before, subs, todo))
        invariant Ranged(Closed, before.subs, subs, registered, todo)
        invariant St() == before.(closed := true, swept := true, subs := subs)
        decreases |todo|
      {
        var id :| id in todo;
        CancelSteps(before, subs, todo, id);
        RangedStep(Closed, before.subs, subs, registered, todo, id);
        subs := subs[id := Cancel(subs[id])];
        todo := todo - {id};
      }
      SweptStep(before, subs);
      ClosedAllRanged(before, subs);
      ClosedEach(before, subs);
      ReachesKeepsInv(before, St());
    }

    /** The two stores of one Range callback. */
    function Cancel(sub: Sub): (r: Sub)
      ensures r == Closed(sub)
    {
      sub.(active := false).(cancelled := true)
    }
  }

  // ----- the calls as runs -----

  lemma RegisteredExist(s: Sys, id: nat)
    requires Inv(s) && id in s.registered
    ensures id in s.subs
  {
  }

  lemma SubscribeSteps(s: Sys)
    requires AllReturned(s) && !s.closed && !s.panicked && s.visits == map[]
    ensures Reaches(s, Subscribed(s)) && AllReturned(Subscribed(s))
  {
    var id := s.nextID + 1;
    hide Reaches;
    ReachesSelf(s);
    ReachesNext(s, s, SubscribeCheck);
    var s1 := Next(s, SubscribeCheck);
    assert s1.checked == {id};
    ReachesNext(s, s1, SubscribeStore(id, {}, false));
    var s2 := Next(s1, SubscribeStore(id, {}, false));
    assert s2.visits == map[] && s2.checked == {};
    ReachesNext(s, s2, SubscribeStart(id));
    assert s2.subs[id := FreshSub(|s.log|).(started := true)] == s.subs[id := FreshSub(|s.log|).(started := true)];
    assert Next(s2, SubscribeStart(id)) == Subscribed(s);
  }

  lemma UnsubscribeSteps(s: Sys, id: nat)
    requires AllReturned(s) && id in s.registered && id in s.subs && !s.panicked && s.leaving == s.dropping == {}
    ensures Reaches(s, Unsubscribed(s, id)) && AllReturned(Unsubscribed(s, id))
  {
    assert {id} - {id} == {} && s.leaving + {id} - {id} == {} && s.dropping + {id} - {id} == {};
    Unsubscribes(s, id, Unsubscribed(s, id));
    hide Next, Enabled, Possible, Run;
  }

  /** The system while Notify ranges over `todo`. */
  ghost function During(s: Sys, subs: map<nat, Sub>, e: Event, todo: set<nat>): Sys {
    s.(log := s.log + [e], visits := map[0 := Visit(e, todo, None)], subs := subs)
  }

  /** The system while Close ranges over `todo`. */
  ghost function Closing(s: Sys, subs: map<nat, Sub>, todo: set<nat>): Sys {
    s.(closed := true, toCancel := todo, subs := subs)
  }

  lemma BeginStep(s: Sys, e: Event)
    requires s.visits == map[] && !s.closed && !s.overlap && !s.panicked
    ensures Reaches(s, During(s, s.subs, e, s.registered))
  {
    hide Reaches;
    ReachesSelf(s);
    ReachesNext(s, s, NotifyBegin(0, e));
  }

  /** The system when the call has checked a subscription and is about to send, if it found it active. */
  ghost function Checked(s: Sys, subs: map<nat, Sub>, e: Event, todo: set<nat>, found: Option<nat>): Sys {
    s.(log := s.log + [e], visits := map[0 := Visit(e, todo, found)], subs := subs)
  }

  lemma TodoExists(s: Sys, n: nat, id: nat)
    requires Inv(s) && n in s.visits && id in s.visits[n].todo
    ensures id in s.subs && (s.subs[id].active ==> !s.subs[id].exited)
  {
    hide UpToDate, AllUpToDate, Registry, Running;
    assert VisitInv(s, s.visits[n]);
    SubsAt(s, id);
  }

  lemma CheckStep(s: Sys, subs: map<nat, Sub>, e: Event, todo: set<nat>, id: nat)
    requires Reaches(s, During(s, subs, e, todo)) && id in todo && !s.panicked && id in subs
    ensures Reaches(s, Checked(s, subs, e, todo - {id}, if subs[id].active then Some(id) else None))
  {
    hide Reaches;
    var d := During(s, subs, e, todo);
    ReachesNext(s, d, OfferCheck(0, id));
    assert Next(d, OfferCheck(0, id)) == Checked(s, subs, e, todo - {id}, if subs[id].active then Some(id) else None);
  }

  lemma SendStep(s: Sys, subs: map<nat, Sub>, e: Event, todo: set<nat>, id: nat)
    requires Reaches(s, Checked(s, subs, e, todo, Some(id))) && id in subs && !subs[id].exited && !s.panicked
    ensures Reaches(s, During(s, subs[id := Accept(subs[id], e, s.queueSize)], e, todo))
  {
    hide Reaches, Accept;
    var d := Checked(s, subs, e, todo, Some(id));
    ReachesNext(s, d, OfferSend(0));
    assert Next(d, OfferSend(0)) == During(s, subs[id := Accept(subs[id], e, s.queueSize)], e, todo);
  }

  lemma OfferSteps(s: Sys, subs: map<nat, Sub>, e: Event, todo: set<nat>, id: nat)
    requires Inv(s) && Reaches(s, During(s, subs, e, todo)) && id in todo && !s.panicked
    ensures id in subs && Reaches(s, During(s, subs[id := Offered(subs[id], e, s.queueSize)], e, todo - {id}))
  {
    hide Inv, Reaches, Accept;
    ReachesKeepsInv(s, During(s, subs, e, todo));
    TodoExists(During(s, subs, e, todo), 0, id);
    CheckStep(s, subs, e, todo, id);
    if subs[id].active {
      SendStep(s, subs, e, todo - {id}, id);
    } else {
      assert subs[id := subs[id]] == subs;
      assert Checked(s, subs, e, todo - {id}, None) == During(s, subs, e, todo - {id});
    }
  }

  lemma EndStep(s: Sys, subs: map<nat, Sub>, e: Event)
    requires Reaches(s, During(s, subs, e, {})) && s.visits == map[] && !s.panicked
    ensures Reaches(s, s.(log := s.log + [e], subs := subs))
  {
    hide Reaches;
    var d := During(s, subs, e, {});
    ReachesNext(s, d, NotifyEnd(0));
    assert d.visits - {0} == map[];
    assert Next(d, NotifyEnd(0)) == s.(log := s.log + [e], subs := subs);
  }

  lemma NotifiedAllRanged(s: Sys, subs: map<nat, Sub>, e: Event, offer: Sub -> Sub)
    requires Ranged(offer, s.subs, subs, s.registered, {})
    requires forall sub :: offer(sub) == Offered(sub, e, s.queueSize)
    ensures NotifiedAll(s, e) == s.(log := s.log + [e], subs := subs)
  {
    hide Offered;
    assert NotifiedAll(s, e).subs == subs;
  }

  /** What the call did to each subscription, in its own fields. */
  lemma NotifiedEach(s: Sys, subs: map<nat, Sub>, e: Event, offer: Sub -> Sub)
    requires Ranged(offer, s.subs, subs, s.registered, {})
    requires forall sub :: offer(sub) == Offered(sub, e, s.queueSize)
    ensures subs.Keys == s.subs.Keys && forall id :: id in subs ==>
              var sub := s.subs[id];
              subs[id] == if id !in s.registered || !sub.active then sub
                          else if |sub.queue| < s.queueSize then
                            sub.(queue := sub.queue + [e], offered := sub.offered + [Offer(e, true)])
                          else sub.(offered := sub.offered + [Offer(e, false)])
  {
  }

  lemma ClosedEach(s: Sys, subs: map<nat, Sub>)
    requires Ranged(Closed, s.subs, subs, s.registered, {})
    ensures subs.Keys == s.subs.Keys && forall id :: id in subs ==>
              subs[id] == if id in s.registered then s.subs[id].(active := false, cancelled := true) else s.subs[id]
  {
  }

  lemma SameStarted(offer: Sub -> Sub, s: Sys, subs: map<nat, Sub>, e: Event)
    requires Ranged(offer, s.subs, subs, s.registered, {}) && AllReturned(s)
    requires forall sub :: offer(sub) == Offered(sub, e, s.queueSize)
    ensures AllReturned(s.(log := s.log + [e], subs := subs))
  {
    forall id | id in subs ensures subs[id].started { AcceptKeepsFlags(s.subs[id], e, s.queueSize); }
  }

  lemma CloseStep(s: Sys)
    requires !s.closed && !s.panicked
    ensures Reaches(s, Closing(s, s.subs, s.registered))
  {
    hide Reaches;
    ReachesSelf(s);
    ReachesNext(s, s, CloseBegin);
  }

  lemma CancelSteps(s: Sys, subs: map<nat, Sub>, todo: set<nat>, id: nat)
    requires Inv(s) && Reaches(s, Closing(s, subs, todo)) && id in todo && !s.panicked && s.closing.None?
    ensures id in subs && Reaches(s, Closing(s, subs[id := Closed(subs[id])], todo - {id}))
  {
    hide Inv, Reaches;
    var d := Closing(s, subs, todo);
    ReachesKeepsInv(s, d);
    assert id in subs by { InvMembers(d); }
    ReachesNext(s, d, CloseDeactivate(id));
    var d1 := d.(toCancel := todo - {id}, closing := Some(id), subs := subs[id := Inactive(subs[id])]);
    assert Next(d, CloseDeactivate(id)) == d1;
    ReachesNext(s, d1, CloseCancel);
    assert d1.subs[id := Cancelled(d1.subs[id])] == subs[id := Closed(subs[id])];
    assert Next(d1, CloseCancel) == Closing(s, subs[id := Closed(subs[id])], todo - {id});
  }

  lemma SweptStep(s: Sys, subs: map<nat, Sub>)
    requires Reaches(s, Closing(s, subs, {})) && !s.panicked && !s.swept && s.toCancel == {} && s.closing.None?
    ensures Reaches(s, s.(closed := true, swept := true, subs := subs))
  {
    hide Reaches;
    ReachesNext(s, Closing(s, subs, {}), CloseSwept);
  }

  lemma ClosedAllRanged(s: Sys, subs: map<nat, Sub>)
    requires Ranged(Closed, s.subs, subs, s.registered, {}) && AllReturned(s)
    ensures ClosedAll(s) == s.(closed := true, swept := true, subs := subs) && AllReturned(ClosedAll(s))
  {
    assert ClosedAll(s).subs == subs;
  }
}
