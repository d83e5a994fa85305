/** Event fan-out of core/observer.go as a step system: subscriptions with bounded queues, one
    processor each, any number of notifiers that range over them, and shutdown. Every call is split
    into the steps in which it reads or changes what others can see. */
module Observers {
  import opened Types
  import opened Text
  import opened StateEngine

  /** An event offered to a subscription, and whether its queue took it. */
  datatype Offer = Offer(event: Event, taken: bool)

  /** One subscription. `started` means that its processor runs or ran, `exited` that it has returned
      and closed the queue; `since` is how many events had been notified when it was registered. */
  datatype Sub = Sub(queue: seq<Event>, active: bool, cancelled: bool, started: bool, exited: bool,
                     offered: seq<Offer>, delivered: seq<Event>, since: nat)

  /** A Notify call under way: its event, the subscriptions that its Range has still to visit, and the
      one it has found active and is about to send to. */
  datatype Visit = Visit(event: Event, todo: set<nat>, sending: Option<nat>)

  /** `checked` are the Subscribe calls past their check of `closed` that have not registered yet;
      `subs` has every subscription ever registered, `registered` those still in the subscribers map;
      `leaving` have been deleted from it by an unsubscription that has still to deactivate them, and
      `dropping` wait for its cancel. `toCancel` are those that Close has still to visit, `closing` is
      the one it has deactivated and not cancelled yet, and `swept` says that its Range is over. `wg`
      counts running processors; `visits` are the Notify calls under way, and `overlap` says that two
      ever were at the same time; `panicked` that an event was sent to a closed queue. */
  datatype Sys = Sys(checked: set<nat>, subs: map<nat, Sub>, registered: set<nat>, leaving: set<nat>,
                     dropping: set<nat>, nextID: nat, queueSize: nat, closed: bool, toCancel: set<nat>,
                     closing: Option<nat>, swept: bool, wg: int, log: seq<Event>,
                     visits: map<nat, Visit>, overlap: bool, panicked: bool)

  datatype Step =
    | SubscribeCheck                    // `closed` is read; the call goes on, or fails
    | SubscribeStore(id: nat, reached: set<nat>, caught: bool)
                                        // Ranges under way may or may not reach the new subscription:
                                        // the visits in `reached`, and that of Close if `caught`
    | SubscribeStart(id: nat)           // wg.Add and the processor
    | UnsubDelete(id: nat)              // LoadAndDelete
    | UnsubDeactivate(id: nat)          // active.Store(false)
    | UnsubCancel(id: nat)              // cancel()
    | NotifyBegin(n: nat, event: Event) // `n` names the call
    | OfferCheck(n: nat, id: nat)       // a Range callback reads `active`
    | OfferSend(n: nat)                 // and then sends without blocking
    | VisitMiss(n: nat, id: nat)        // the Range passes by a subscription that has been deleted
    | NotifyEnd(n: nat)
    | Process(id: nat)                  // the processor takes an event and runs the observer
    | Exit(id: nat)                     // the processor sees ctx.Done(), returns and closes the queue
    | CloseBegin
    | CloseDeactivate(id: nat)          // a Range callback of Close clears `active`
    | CloseCancel                       // and then cancels
    | CloseMiss(id: nat)                // its Range passes by a subscription that has been deleted
    | CloseSwept                        // the Range of Close is over; it waits from now on

  predicate Enabled(s: Sys, step: Step) {
    !s.panicked &&
    match step
    case SubscribeCheck => true
    case SubscribeStore(id, _, _) => id in s.checked
    case SubscribeStart(id) => id in s.subs && !s.subs[id].started
    case UnsubDelete(id) => id in s.subs ==> s.subs[id].started
    case UnsubDeactivate(id) => id in s.leaving && id in s.subs
    case UnsubCancel(id) => id in s.dropping && id in s.subs
    case NotifyBegin(n, _) => n !in s.visits
    case OfferCheck(n, id) => n in s.visits && s.visits[n].sending.None? && id in s.visits[n].todo && id in s.subs
    case OfferSend(n) => n in s.visits && s.visits[n].sending.Some? && s.visits[n].sending.value in s.subs
    case VisitMiss(n, id) =>
      n in s.visits && s.visits[n].sending.None? && id in s.visits[n].todo && id !in s.registered
    case NotifyEnd(n) => n in s.visits && s.visits[n].todo == {} && s.visits[n].sending.None?
    case Process(id) => id in s.subs && Runs(s.subs[id]) && s.subs[id].queue != []
    case Exit(id) => id in s.subs && Runs(s.subs[id]) && s.subs[id].cancelled
    case CloseBegin => true
    case CloseDeactivate(id) => id in s.toCancel && id in s.subs && s.closing.None?
    case CloseCancel => s.closing.Some? && s.closing.value in s.subs
    case CloseMiss(id) => id in s.toCancel && id !in s.registered
    case CloseSwept => s.closed && !s.swept && s.toCancel == {} && s.closing.None?
  }

  /** The processor is running. */
  predicate Runs(sub: Sub) { sub.started && !sub.exited }

  /** The non-blocking send. */
  function Accept(sub: Sub, e: Event, queueSize: nat): Sub {
    if |sub.queue| < queueSize then sub.(queue := sub.queue + [e], offered := sub.offered + [Offer(e, true)])
    else sub.(offered := sub.offered + [Offer(e, false)])
  }

  function Inactive(sub: Sub): Sub { sub.(active := false) }
  function Cancelled(sub: Sub): Sub { sub.(cancelled := true) }

  function FreshSub(since: nat): Sub {
    Sub([], true, false, false, false, [], [], since)
  }

  /** The visits of `reached` will come to the new subscription too. */
  ghost function Reach(visits: map<nat, Visit>, reached: set<nat>, id: nat): map<nat, Visit> {
    Tabulate(visits.Keys, n requires n in visits =>
      if n in reached then visits[n].(todo := visits[n].todo + {id}) else visits[n])
  }

  ghost function Next(s: Sys, step: Step): Sys
    requires Enabled(s, step)
  {
    match step
    case SubscribeCheck => if s.closed then s else s.(nextID := s.nextID + 1, checked := s.checked + {s.nextID + 1})
    case SubscribeStore(id, reached, caught) =>
      var sees := s.visits.Keys * reached != {} && s.log != [];
      s.(checked := s.checked - {id}, registered := s.registered + {id},
         subs := s.subs[id := FreshSub(if sees then |s.log| - 1 else |s.log|)],
         toCancel := if caught && s.closed && !s.swept then s.toCancel + {id} else s.toCancel,
         visits := Reach(s.visits, reached, id))
    case SubscribeStart(id) => s.(wg := s.wg + 1, subs := s.subs[id := s.subs[id].(started := true)])
    case UnsubDelete(id) =>
      if id !in s.registered then s else s.(registered := s.registered - {id}, leaving := s.leaving + {id})
    case UnsubDeactivate(id) =>
      s.(leaving := s.leaving - {id}, dropping := s.dropping + {id}, subs := s.subs[id := Inactive(s.subs[id])])
    case UnsubCancel(id) => s.(dropping := s.dropping - {id}, subs := s.subs[id := Cancelled(s.subs[id])])
    case NotifyBegin(n, e) =>
      if s.closed then s else
      s.(log := s.log + [e], visits := s.visits[n := Visit(e, s.registered, None)],
         overlap := s.overlap || s.visits != map[])
    case OfferCheck(n, id) =>
      var found := if s.subs[id].active then Some(id) else None;
      s.(visits := s.visits[n := s.visits[n].(todo := s.visits[n].todo - {id}, sending := found)])
    case OfferSend(n) =>
      var id := s.visits[n].sending.value;
      if s.subs[id].exited then s.(panicked := true) else
      s.(subs := s.subs[id := Accept(s.subs[id], s.visits[n].event, s.queueSize)],
         visits := s.visits[n := s.visits[n].(sending := None)])
    case VisitMiss(n, id) => s.(visits := s.visits[n := s.visits[n].(todo := s.visits[n].todo - {id})])
    case NotifyEnd(n) => s.(visits := s.visits - {n})
    case Process(id) =>
      var sub := s.subs[id];
      s.(subs := s.subs[id := sub.(delivered := sub.delivered + [sub.queue[0]], queue := sub.queue[1..])])
    case Exit(id) => s.(wg := s.wg - 1, subs := s.subs[id := s.subs[id].(exited := true)])
    case CloseBegin => if s.closed then s else s.(closed := true, toCancel := s.registered)
    case CloseDeactivate(id) =>
      s.(toCancel := s.toCancel - {id}, closing := Some(id), subs := s.subs[id := Inactive(s.subs[id])])
    case CloseCancel =>
      s.(closing := None, subs := s.subs[s.closing.value := Cancelled(s.subs[s.closing.value])])
    case CloseMiss(id) => s.(toCancel := s.toCancel - {id})
    case CloseSwept => s.(swept := true)
  }

  function Initial(queueSize: nat): Sys {
    Sys({}, map[], {}, {}, {}, 0, queueSize, false, {}, None, false, 0, [], map[], false, false)
  }

  ghost predicate Possible(s: Sys, steps: seq<Step>)
    decreases |steps|
  {
    steps != [] ==> Enabled(s, steps[0]) && Possible(Next(s, steps[0]), steps[1..])
  }

  ghost function Run(s: Sys, steps: seq<Step>): Sys
    requires Possible(s, steps)
    decreases |steps|
  {
    if steps == [] then s else Run(Next(s, steps[0]), steps[1..])
  }

  // ----- one subscription -----

  function Taken(offered: seq<Offer>): seq<Event> {
    if offered == [] then [] else
    var n := |offered| - 1;
    Taken(offered[..n]) + if offered[n].taken then [offered[n].event] else []
  }

  function Dropped(offered: seq<Offer>): nat {
    if offered == [] then 0 else
    Dropped(offered[..|offered| - 1]) + if offered[|offered| - 1].taken then 0 else 1
  }

  function Events(offered: seq<Offer>): seq<Event> {
    seq(|offered|, i requires 0 <= i < |offered| => offered[i].event)
  }

  /** The queue is bounded; what was delivered and then what is queued is exactly what was taken, in
      order; an event is dropped only after the queue has been full; a closed queue is not active. */
  ghost predicate SubInv(sub: Sub, queueSize: nat) {
    && |sub.queue| <= queueSize
    && Taken(sub.offered) == sub.delivered + sub.queue
    && |sub.offered| == |sub.delivered| + |sub.queue| + Dropped(sub.offered)
    && (Dropped(sub.offered) > 0 ==> |sub.offered| > queueSize)
    && (sub.exited ==> sub.started && sub.cancelled)
    && (sub.cancelled ==> !sub.active)
  }

  lemma AcceptKeepsInv(sub: Sub, e: Event, queueSize: nat)
    requires SubInv(sub, queueSize)
    ensures SubInv(Accept(sub, e, queueSize), queueSize)
    ensures Dropped(Accept(sub, e, queueSize).offered) > Dropped(sub.offered) <==> |sub.queue| == queueSize
  {
    OfferedMore(sub.offered, Offer(e, |sub.queue| < queueSize));
    hide Taken, Dropped;
    if |sub.queue| < queueSize {
      Associative(sub.delivered, sub.queue, [e]);
    } else {
      assert Taken(sub.offered) + [] == Taken(sub.offered);
    }
  }

  lemma OfferedMore(offered: seq<Offer>, o: Offer)
    ensures Taken(offered + [o]) == Taken(offered) + if o.taken then [o.event] else []
    ensures Dropped(offered + [o]) == Dropped(offered) + if o.taken then 0 else 1
  {
    assert (offered + [o])[..|offered|] == offered;
  }

  lemma ProcessKeepsInv(sub: Sub, queueSize: nat)
    requires SubInv(sub, queueSize) && sub.queue != []
    ensures SubInv(sub.(delivered := sub.delivered + [sub.queue[0]], queue := sub.queue[1..]), queueSize)
  {
    assert sub.delivered + sub.queue == sub.delivered + [sub.queue[0]] + sub.queue[1..];
  }

  lemma FreshInv(since: nat, queueSize: nat)
    ensures SubInv(FreshSub(since), queueSize)
  {
  }

  // ----- the whole system -----

  function Running(subs: map<nat, Sub>): set<nat> {
    set id | id in subs && Runs(subs[id])
  }

  /** Some Notify call has still to come to the subscription, or is about to send to it. */
  ghost predicate Reaching(s: Sys, id: nat) {
    exists n :: n in s.visits && Comes(s.visits[n], id)
  }

  predicate Comes(v: Visit, id: nat) { id in v.todo || v.sending == Some(id) }

  /** A step of one visit that does not change whether it comes to the subscription. */
  lemma ReachingKept(s: Sys, t: Sys, n: nat, id: nat)
    requires n in s.visits && n in t.visits && t.visits == s.visits[n := t.visits[n]]
    requires Comes(t.visits[n], id) == Comes(s.visits[n], id)
    ensures Reaching(t, id) == Reaching(s, id)
  {
    if Reaching(s, id) {
      var m :| m in s.visits && Comes(s.visits[m], id);
      assert m in t.visits && Comes(t.visits[m], id);
    }
  }

  /** As long as notifications have not overlapped, an active subscription that is still in the
      subscribers map has been offered every event since it was registered, in order, except the one
      being notified if it has still to come. */
  ghost predicate UpToDate(s: Sys, id: nat)
    requires id in s.subs
  {
    var sub := s.subs[id];
    !s.overlap && id in s.registered && sub.active ==>
      && (Reaching(s, id) ==> s.log != [])
      && sub.since <= |s.log|
      && Events(sub.offered) + (if Reaching(s, id) then [s.log[|s.log| - 1]] else []) == s.log[sub.since..]
  }

  ghost predicate SubsInv(s: Sys) {
    forall id :: id in s.subs ==> SubInv(s.subs[id], s.queueSize) && id <= s.nextID
  }

  ghost predicate AllUpToDate(s: Sys) {
    forall id :: id in s.subs ==> UpToDate(s, id)
  }

  ghost predicate Registry(s: Sys) {
    Members(s) && Duties(s)
  }

  ghost predicate Members(s: Sys) {
    && s.registered <= s.subs.Keys && s.leaving <= s.subs.Keys && s.dropping <= s.subs.Keys
    && s.toCancel <= s.subs.Keys && (s.closing.Some? ==> s.closing.value in s.subs)
    && s.checked !! s.subs.Keys && (forall id :: id in s.checked ==> id <= s.nextID)
    && (!s.closed ==> s.toCancel == {} && s.closing.None? && !s.swept)
    && (s.swept ==> s.toCancel == {} && s.closing.None?)
  }

  /** What is left to do for a subscription is known: one that is off the register is cancelled, or an
      unsubscription is on its way; one that is inactive is cancelled, or a cancel is due. */
  ghost predicate Duties(s: Sys) {
    && (forall id :: id in s.subs ==> id in s.registered || id in s.leaving || id in s.dropping || s.subs[id].cancelled)
    && (forall id :: id in s.subs && !s.subs[id].active ==>
          s.subs[id].cancelled || id in s.dropping || s.closing == Some(id))
    && (forall id :: id in s.subs && (id in s.dropping || s.closing == Some(id)) ==> !s.subs[id].active)
  }

  /** Without overlap at most one call is under way, and its event is the last. */
  ghost predicate Notification(s: Sys) {
    && (forall n :: n in s.visits ==> VisitInv(s, s.visits[n]))
    && (!s.overlap ==> forall n :: n in s.visits ==> s.visits[n].event == s.log[|s.log| - 1])
    && (!s.overlap ==> forall n, m :: n in s.visits && m in s.visits ==> n == m)
  }

  ghost predicate VisitInv(s: Sys, v: Visit) {
    && v.todo <= s.subs.Keys && s.log != []
    && (v.sending.Some? ==> v.sending.value in s.subs && v.sending.value !in v.todo)
  }

  ghost predicate Inv(s: Sys) {
    SubsInv(s) && AllUpToDate(s) && Registry(s) && Notification(s) && s.wg == |Running(s.subs)|
  }

  lemma NextKeepsSubs(s: Sys, step: Step)
    requires Inv(s) && Enabled(s, step)
    ensures SubsInv(Next(s, step))
  {
    hide SubInv, SubsInv, AllUpToDate, Notification, Running, Accept, Reach, Inactive, Cancelled, FreshSub;
    var t := Next(s, step);
    CheckedApart(s);
    match step {
      case SubscribeStore(id, reached, _) =>
        SubsFresh(s, id, if s.visits.Keys * reached != {} && s.log != [] then |s.log| - 1 else |s.log|, t);
      case SubscribeStart(id) => FlagsKeep(s, id, t);
      case OfferSend(n) =>
        var id := s.visits[n].sending.value;
        if s.subs[id].exited {
          SameSubs(s, t);
        } else {
          SubsAt(s, id);
          AcceptKeepsInv(s.subs[id], s.visits[n].event, s.queueSize);
          SubsWith(s, id, t.subs[id], t);
        }
      case Process(id) =>
        SubsAt(s, id);
        ProcessKeepsInv(s.subs[id], s.queueSize);
        SubsWith(s, id, t.subs[id], t);
      case UnsubDeactivate(id) => FlagsKeep(s, id, t);
      case UnsubCancel(id) => FlagsKeep(s, id, t);
      case CloseDeactivate(id) => FlagsKeep(s, id, t);
      case CloseCancel => FlagsKeep(s, s.closing.value, t);
      case Exit(id) => FlagsKeep(s, id, t);
      case _ => SameSubs(s, t);
    }
  }

  lemma SubsFresh(s: Sys, id: nat, since: nat, t: Sys)
    requires SubsInv(s) && t.queueSize == s.queueSize && t.nextID == s.nextID >= id
    requires t.subs == s.subs[id := FreshSub(since)]
    ensures SubsInv(t)
  {
    FreshInv(since, s.queueSize);
    SubsWith(s, id, FreshSub(since), t);
  }

  lemma FlagsKeep(s: Sys, id: nat, t: Sys)
    requires SubsInv(s) && t.queueSize == s.queueSize && t.nextID == s.nextID && id in s.subs
    requires t.subs in {s.subs[id := Inactive(s.subs[id])], s.subs[id := s.subs[id].(started := true)]} ||
             (!s.subs[id].active && t.subs == s.subs[id := Cancelled(s.subs[id])]) ||
             (Runs(s.subs[id]) && s.subs[id].cancelled && t.subs == s.subs[id := s.subs[id].(exited := true)])
    ensures SubsInv(t)
  {
    SubsAt(s, id);
    FlagsKeepInv(s.subs[id], s.queueSize);
    SubsWith(s, id, t.subs[id], t);
  }

  lemma SubsAt(s: Sys, id: nat)
    requires SubsInv(s) && id in s.subs
    ensures SubInv(s.subs[id], s.queueSize) && id <= s.nextID
  {
  }

  lemma SubsWith(s: Sys, id: nat, sub: Sub, t: Sys)
    requires SubsInv(s) && SubInv(sub, s.queueSize) && t.subs == s.subs[id := sub]
    requires t.queueSize == s.queueSize && s.nextID <= t.nextID && id <= t.nextID
    ensures SubsInv(t)
  {
  }

  lemma SameSubs(s: Sys, t: Sys)
    requires SubsInv(s) && t.subs == s.subs && t.queueSize == s.queueSize && t.nextID >= s.nextID
    ensures SubsInv(t)
  {
  }

  lemma FlagsKeepInv(sub: Sub, queueSize: nat)
    requires SubInv(sub, queueSize)
    ensures SubInv(Inactive(sub), queueSize) && SubInv(sub.(started := true), queueSize)
    ensures !sub.active ==> SubInv(Cancelled(sub), queueSize)
    ensures sub.cancelled && sub.started ==> SubInv(sub.(exited := true), queueSize)
  {
  }

  lemma NextKeepsRegistry(s: Sys, step: Step)
    requires Inv(s) && Enabled(s, step)
    ensures Registry(Next(s, step))
  {
    NextKeepsMembers(s, step);
    NextKeepsDuties(s, step);
    hide Members, Duties;
  }

  lemma NextKeepsMembers(s: Sys, step: Step)
    requires Inv(s) && Enabled(s, step)
    ensures Members(Next(s, step))
  {
    hide UpToDate, AllUpToDate, Accept, Running, Notification, Reach, Duties;
    hide Members, SubInv, SubsInv, Inactive, Cancelled, FreshSub;
    var t := Next(s, step);
    match step {
      case SubscribeCheck =>
        KnownIDs(s);
        MembersCheck(s);
      case SubscribeStore(id, reached, caught) => MembersStore(s, id, reached, caught);
      case CloseBegin => MembersClose(s);
      case UnsubDelete(_) => MembersShrink(s, t);
      case UnsubDeactivate(_) => MembersShrink(s, t);
      case UnsubCancel(_) => MembersShrink(s, t);
      case CloseDeactivate(_) => MembersClosing(s, step);
      case CloseCancel => MembersShrink(s, t);
      case CloseMiss(_) => MembersShrink(s, t);
      case CloseSwept => MembersShrink(s, t);
      case _ => MembersSame(s, step);
    }
  }

  lemma MembersClosing(s: Sys, step: Step)
    requires Members(s) && Enabled(s, step) && step.CloseDeactivate?
    ensures Members(Next(s, step))
  {
  }

  lemma MembersSame(s: Sys, step: Step)
    requires Members(s) && Enabled(s, step)
    requires step.SubscribeStart? || step.NotifyBegin? || step.OfferCheck? || step.OfferSend? || step.VisitMiss? ||
             step.NotifyEnd? || step.Process? || step.Exit?
    ensures Members(Next(s, step))
  {
    hide Accept;
    MembersShrink(s, Next(s, step)) by { hide Members; }
  }

  lemma KnownIDs(s: Sys)
    requires SubsInv(s)
    ensures s.nextID + 1 !in s.subs
  {
    hide SubInv;
  }

  lemma MembersCheck(s: Sys)
    requires Members(s) && Enabled(s, SubscribeCheck) && s.nextID + 1 !in s.subs
    ensures Members(Next(s, SubscribeCheck))
  {
  }

  lemma MembersStore(s: Sys, id: nat, reached: set<nat>, caught: bool)
    requires Members(s) && Enabled(s, SubscribeStore(id, reached, caught))
    ensures Members(Next(s, SubscribeStore(id, reached, caught)))
  {
  }

  lemma MembersClose(s: Sys)
    requires Members(s) && Enabled(s, CloseBegin)
    ensures Members(Next(s, CloseBegin))
  {
  }

  lemma MembersShrink(s: Sys, t: Sys)
    requires Members(s) && t.subs.Keys == s.subs.Keys && t.registered <= s.registered && t.checked == s.checked
    requires t.leaving <= s.leaving + s.registered && t.dropping <= s.dropping + s.leaving
    requires t.toCancel <= s.toCancel && t.nextID == s.nextID && t.closed == s.closed
    requires t.closing == None || t.closing == s.closing || (s.closed && !s.swept && t.closing.value in s.toCancel)
    requires t.swept == s.swept || (t.swept && t.closed && t.toCancel == {} && t.closing.None?)
    ensures Members(t)
  {
  }

  lemma NextKeepsDuties(s: Sys, step: Step)
    requires Inv(s) && Enabled(s, step)
    ensures Duties(Next(s, step))
  {
    hide Inv, Members, UpToDate, AllUpToDate, Accept, Running, Notification, Reach, SubsInv, SubInv;
    var t := Next(s, step);
    InvDuties(s);
    hide Duties;
    match step {
      case SubscribeStore(id, reached, caught) => DutiesStore(s, id, reached, caught) by { InvMembers(s); }
      case UnsubDeactivate(id) => DutiesFlag(s, id, t);
      case UnsubCancel(id) => DutiesFlag(s, id, t);
      case CloseDeactivate(id) => DutiesFlag(s, id, t);
      case CloseCancel => DutiesFlag(s, s.closing.value, t);
      case UnsubDelete(id) => DutiesDelete(s, id);
      case OfferSend(n) =>
        var id := s.visits[n].sending.value;
        AcceptKeepsFlags(s.subs[id], s.visits[n].event, s.queueSize);
        if s.subs[id].exited { DutiesKept(s, t); } else { DutiesSame(s, id, t); }
      case SubscribeStart(id) => DutiesSame(s, id, t);
      case Process(id) => DutiesSame(s, id, t);
      case Exit(id) => DutiesSame(s, id, t);
      case _ => DutiesKept(s, t);
    }
  }

  ghost predicate Duty(s: Sys, id: nat)
    requires id in s.subs
  {
    && (id in s.registered || id in s.leaving || id in s.dropping || s.subs[id].cancelled)
    && (!s.subs[id].active ==> s.subs[id].cancelled || id in s.dropping || s.closing == Some(id))
    && (id in s.dropping || s.closing == Some(id) ==> !s.subs[id].active)
  }

  /** A step that changes one subscription, and what is due for it. */
  lemma DutiesWith(s: Sys, id: nat, t: Sys)
    requires Duties(s) && id in t.subs && t.subs == s.subs[id := t.subs[id]] && Duty(t, id)
    requires forall x :: x != id ==>
      && (x in s.registered ==> x in t.registered) && (x in s.leaving ==> x in t.leaving)
      && (x in s.dropping <==> x in t.dropping) && (s.closing == Some(x) <==> t.closing == Some(x))
    ensures Duties(t)
  {
  }

  lemma InvDuties(s: Sys)
    requires Inv(s)
    ensures Duties(s)
  {
  }

  lemma InvMembers(s: Sys)
    requires Inv(s)
    ensures Members(s)
  {
  }

  lemma DutiesStore(s: Sys, id: nat, reached: set<nat>, caught: bool)
    requires Duties(s) && Members(s) && Enabled(s, SubscribeStore(id, reached, caught))
    ensures Duties(Next(s, SubscribeStore(id, reached, caught)))
  {
    hide Reach;
  }

  /** A step of an unsubscription or of Close for one subscription. */
  lemma DutiesFlag(s: Sys, id: nat, t: Sys)
    requires Duties(s) && id in s.subs && t.registered == s.registered && t.leaving <= s.leaving <= t.leaving + {id}
    requires t.dropping - {id} == s.dropping - {id} && id in t.subs && t.subs == s.subs[id := t.subs[id]]
    requires t.closing == s.closing || (s.closing.None? && t.closing == Some(id)) ||
             (s.closing == Some(id) && t.closing.None?)
    requires t.subs[id].cancelled || (!t.subs[id].active && (id in t.dropping || t.closing == Some(id)))
    requires !t.subs[id].active && (s.subs[id].cancelled ==> t.subs[id].cancelled)
    requires id in s.leaving ==> id in t.leaving || id in t.dropping || t.subs[id].cancelled
    requires id in s.dropping ==> id in t.dropping || t.subs[id].cancelled
    ensures Duties(t)
  {
    assert Duty(s, id);
    forall x | x != id
      ensures (x in s.leaving ==> x in t.leaving) && (x in s.dropping <==> x in t.dropping)
    {
      assert x in s.dropping - {id} <==> x in t.dropping - {id};
    }
    DutiesWith(s, id, t);
  }

  lemma DutiesSame(s: Sys, id: nat, t: Sys)
    requires Duties(s) && id in s.subs && id in t.subs && t.subs == s.subs[id := t.subs[id]]
    requires t.registered == s.registered && t.leaving == s.leaving
    requires t.dropping == s.dropping && t.closing == s.closing
    requires t.subs[id].active == s.subs[id].active && t.subs[id].cancelled == s.subs[id].cancelled
    ensures Duties(t)
  {
    assert Duty(s, id);
    DutiesWith(s, id, t);
  }

  lemma DutiesDelete(s: Sys, id: nat)
    requires Duties(s) && Enabled(s, UnsubDelete(id))
    ensures Duties(Next(s, UnsubDelete(id)))
  {
  }

  lemma DutiesKept(s: Sys, t: Sys)
    requires Duties(s) && t.subs == s.subs && t.registered == s.registered && t.leaving == s.leaving
    requires t.dropping == s.dropping && t.closing == s.closing
    ensures Duties(t)
  {
  }

  lemma AcceptKeepsFlags(sub: Sub, e: Event, queueSize: nat)
    ensures var r := Accept(sub, e, queueSize);
            r.active == sub.active && r.cancelled == sub.cancelled && r.started == sub.started && r.exited == sub.exited
  {
  }

  lemma NextKeepsNotification(s: Sys, step: Step)
    requires Inv(s) && Enabled(s, step)
    ensures Notification(Next(s, step))
  {
    hide SubInv, UpToDate, SubsInv, AllUpToDate, Accept, Running, Notification, Members, Duties, Reach, VisitInv;
    match step {
      case SubscribeStore(id, reached, caught) => NotificationStore(s, id, reached, caught);
      case NotifyBegin(n, e) => NotificationBegin(s, n, e);
      case OfferCheck(n, id) => NotificationOffer(s, n, step);
      case OfferSend(n) => NotificationOffer(s, n, step);
      case VisitMiss(n, _) => NotificationOffer(s, n, step);
      case NotifyEnd(n) => NotificationEnd(s, n);
      case _ => NotificationKept(s, Next(s, step));
    }
  }

  lemma NotificationStore(s: Sys, id: nat, reached: set<nat>, caught: bool)
    requires Notification(s) && Registry(s) && Enabled(s, SubscribeStore(id, reached, caught))
    ensures Notification(Next(s, SubscribeStore(id, reached, caught)))
  {
    var t := Next(s, SubscribeStore(id, reached, caught));
    forall n | n in t.visits ensures VisitInv(t, t.visits[n]) { assert VisitInv(s, s.visits[n]); }
  }

  lemma NotificationBegin(s: Sys, n: nat, e: Event)
    requires Notification(s) && Registry(s) && Enabled(s, NotifyBegin(n, e))
    ensures Notification(Next(s, NotifyBegin(n, e)))
  {
    var t := Next(s, NotifyBegin(n, e));
    if !s.closed {
      forall m | m in t.visits ensures VisitInv(t, t.visits[m]) {
        if m != n { assert VisitInv(s, s.visits[m]); }
      }
    }
  }

  lemma NotificationEnd(s: Sys, n: nat)
    requires Notification(s) && Enabled(s, NotifyEnd(n))
    ensures Notification(Next(s, NotifyEnd(n)))
  {
    var t := Next(s, NotifyEnd(n));
    forall m | m in t.visits ensures VisitInv(t, t.visits[m]) { assert VisitInv(s, s.visits[m]); }
  }

  lemma NotificationOffer(s: Sys, n: nat, step: Step)
    requires Notification(s) && Enabled(s, step)
    requires step == OfferSend(n) || ((step.OfferCheck? || step.VisitMiss?) && step.n == n)
    ensures Notification(Next(s, step))
  {
    hide Accept;
    assert VisitInv(s, s.visits[n]);
    OneVisit(s, n, Next(s, step)) by { hide Notification; }
  }

  lemma OneVisit(s: Sys, n: nat, t: Sys)
    requires Notification(s) && n in s.visits && t.subs.Keys == s.subs.Keys
    requires t.log == s.log && t.overlap == s.overlap
    requires t.visits == s.visits || (n in t.visits && t.visits == s.visits[n := t.visits[n]] &&
               t.visits[n].event == s.visits[n].event && VisitInv(t, t.visits[n]))
    ensures Notification(t)
  {
    forall m | m in t.visits ensures VisitInv(t, t.visits[m]) { assert VisitInv(s, s.visits[m]); }
  }

  lemma NotificationKept(s: Sys, t: Sys)
    requires Notification(s) && t.subs.Keys == s.subs.Keys
    requires t.log == s.log && t.overlap == s.overlap && t.visits == s.visits
    ensures Notification(t)
  {
    forall m | m in t.visits ensures VisitInv(t, t.visits[m]) { assert VisitInv(s, s.visits[m]); }
  }

  lemma RunningAdd(subs: map<nat, Sub>, id: nat, sub: Sub)
    requires (id in subs ==> !Runs(subs[id])) && Runs(sub)
    ensures |Running(subs[id := sub])| == |Running(subs)| + 1
  {
    assert Running(subs[id := sub]) == Running(subs) + {id};
  }

  lemma RunningSame(subs: map<nat, Sub>, id: nat, sub: Sub)
    requires if id in subs then Runs(subs[id]) == Runs(sub) else !Runs(sub)
    ensures Running(subs[id := sub]) == Running(subs)
  {
  }

  lemma RunningRemove(subs: map<nat, Sub>, id: nat, sub: Sub)
    requires id in subs && Runs(subs[id]) && !Runs(sub)
    ensures |Running(subs[id := sub])| == |Running(subs)| - 1
  {
    assert Running(subs[id := sub]) == Running(subs) - {id};
  }

  lemma NextKeepsCount(s: Sys, step: Step)
    requires Inv(s) && Enabled(s, step)
    ensures Next(s, step).wg == |Running(Next(s, step).subs)|
  {
    hide Running, AllUpToDate, Notification, Registry, Reach, Accept;
    var t := Next(s, step);
    match step {
      case SubscribeStore(id, _, _) =>
        CheckedApart(s);
        RunningSame(s.subs, id, t.subs[id]);
      case SubscribeStart(id) =>
        assert !s.subs[id].exited by { SubsAt(s, id); }
        RunningAdd(s.subs, id, t.subs[id]);
      case UnsubDeactivate(id) => RunningSame(s.subs, id, t.subs[id]);
      case UnsubCancel(id) => RunningSame(s.subs, id, t.subs[id]);
      case OfferSend(n) =>
        var id := s.visits[n].sending.value;
        AcceptKeepsFlags(s.subs[id], s.visits[n].event, s.queueSize);
        if !s.subs[id].exited { RunningSame(s.subs, id, t.subs[id]); }
      case Process(id) => RunningSame(s.subs, id, t.subs[id]);
      case CloseDeactivate(id) => RunningSame(s.subs, id, t.subs[id]);
      case CloseCancel => RunningSame(s.subs, s.closing.value, t.subs[s.closing.value]);
      case Exit(id) => RunningRemove(s.subs, id, t.subs[id]);
      case _ =>
    }
  }

  lemma CheckedApart(s: Sys)
    requires Registry(s)
    ensures s.checked !! s.subs.Keys && forall id :: id in s.checked ==> id <= s.nextID
  {
  }

  /** Only an active subscription's own offer, and a new notification, change what it is missing. */
  lemma NextKeepsUpToDate(s: Sys, step: Step, id: nat)
    requires Inv(s) && Enabled(s, step) && id in Next(s, step).subs
    ensures UpToDate(Next(s, step), id)
  {
    hide SubInv, SubsInv, Registry, Notification, Events, Reach, Running, Accept, UpToDate, Reaching,
         FreshSub, Runs;
    var t := Next(s, step);
    match step {
      case SubscribeStore(x, reached, caught) =>
        if x == id { FreshUpToDate(s, x, reached, caught); } else { ReachUpToDate(s, x, reached, caught, id); }
      case OfferCheck(n, x) => CheckUpToDate(s, n, x, id);
      case OfferSend(n) => SendUpToDate(s, n, id);
      case VisitMiss(n, x) => MissUpToDate(s, n, x, id);
      case NotifyBegin(n, e) => BeginUpToDate(s, n, e, id);
      case NotifyEnd(n) => EndUpToDate(s, n, id);
      case _ => OtherUpToDate(s, step, id);
    }
  }

  /** Steps that leave the visits and the log alone. */
  predicate Aside(step: Step) {
    OnSub(step) || step.SubscribeCheck? || step.UnsubDelete? || step.CloseBegin? || step.CloseMiss? || step.CloseSwept?
  }

  /** Those of them that change one subscription. */
  predicate OnSub(step: Step) {
    step.SubscribeStart? || step.UnsubDeactivate? || step.UnsubCancel? || step.Process? || step.Exit? ||
    step.CloseDeactivate? || step.CloseCancel?
  }

  lemma AsideKeeps(s: Sys, step: Step)
    requires Enabled(s, step) && Aside(step)
    ensures var t := Next(s, step);
            && t.log == s.log && t.visits == s.visits && t.overlap == s.overlap && t.registered <= s.registered
            && t.subs.Keys == s.subs.Keys && (!OnSub(step) ==> t.subs == s.subs)
  {
    hide Accept, Reach, Runs;
    var t := Next(s, step);
    match step
    case SubscribeStart(x) => assert t.subs == s.subs[x := t.subs[x]];
    case UnsubDeactivate(x) => assert t.subs == s.subs[x := t.subs[x]];
    case UnsubCancel(x) => assert t.subs == s.subs[x := t.subs[x]];
    case CloseDeactivate(x) => assert t.subs == s.subs[x := t.subs[x]];
    case Process(x) => assert t.subs == s.subs[x := t.subs[x]];
    case Exit(x) => assert t.subs == s.subs[x := t.subs[x]];
    case CloseCancel => assert t.subs == s.subs[s.closing.value := t.subs[s.closing.value]];
    case _ =>
  }

  lemma OnSubKeeps(s: Sys, step: Step, id: nat)
    requires Enabled(s, step) && OnSub(step) && id in s.subs && id in Next(s, step).subs
    ensures var a, b := s.subs[id], Next(s, step).subs[id];
            b.offered == a.offered && b.since == a.since && (b.active ==> a.active)
  {
    hide Accept, Reach, Runs;
    var a, b := s.subs[id], Next(s, step).subs[id];
    match step
    case SubscribeStart(x) => assert b == if x == id then a.(started := true) else a;
    case UnsubDeactivate(x) => assert b == if x == id then Inactive(a) else a;
    case UnsubCancel(x) => assert b == if x == id then Cancelled(a) else a;
    case CloseDeactivate(x) => assert b == if x == id then Inactive(a) else a;
    case CloseCancel => assert b == if s.closing == Some(id) then Cancelled(a) else a;
    case Process(x) => assert b.offered == a.offered;
    case Exit(x) => assert b == if x == id then a.(exited := true) else a;
  }

  lemma OtherUpToDate(s: Sys, step: Step, id: nat)
    requires Inv(s) && Enabled(s, step) && Aside(step) && id in Next(s, step).subs
    ensures UpToDate(Next(s, step), id)
  {
    AsideKeeps(s, step);
    if OnSub(step) { OnSubKeeps(s, step, id); }
    assert UpToDate(s, id);
    hide Inv, Next, UpToDate;
    UpToDateKept(s, Next(s, step), id);
  }

  lemma UpToDateKept(s: Sys, t: Sys, id: nat)
    requires id in s.subs && UpToDate(s, id) && id in t.subs
    requires t.log == s.log && t.visits == s.visits && t.overlap == s.overlap
    requires t.subs[id].offered == s.subs[id].offered && t.subs[id].since == s.subs[id].since
    requires t.subs[id].active ==> s.subs[id].active
    requires id in t.registered ==> id in s.registered
    ensures UpToDate(t, id)
  {
    hide Events;
    assert Reaching(t, id) == Reaching(s, id);
  }

  lemma FreshUpToDate(s: Sys, id: nat, reached: set<nat>, caught: bool)
    requires Inv(s) && Enabled(s, SubscribeStore(id, reached, caught))
    ensures UpToDate(Next(s, SubscribeStore(id, reached, caught)), id)
  {
    hide SubInv, UpToDate, Running, AllUpToDate;
    var t := Next(s, SubscribeStore(id, reached, caught));
    assert t.visits == Reach(s.visits, reached, id);
    forall n | n in s.visits ensures id !in s.visits[n].todo && s.visits[n].sending != Some(id) {
      assert VisitInv(s, s.visits[n]);
    }
    assert Reaching(t, id) <==> s.visits.Keys * reached != {} by {
      if n :| n in s.visits.Keys * reached { assert Comes(t.visits[n], id); }
      if Reaching(t, id) {
        var n :| n in t.visits && Comes(t.visits[n], id);
        assert n in s.visits.Keys * reached;
      }
    }
    FreshMissing(t, id);
  }

  lemma FreshMissing(t: Sys, id: nat)
    requires id in t.subs && t.subs[id] == FreshSub(t.subs[id].since)
    requires Reaching(t, id) ==> t.log != []
    requires t.subs[id].since == if Reaching(t, id) then |t.log| - 1 else |t.log|
    ensures UpToDate(t, id)
  {
    assert Events([]) == [];
  }

  lemma CheckUpToDate(s: Sys, n: nat, x: nat, id: nat)
    requires Inv(s) && Enabled(s, OfferCheck(n, x)) && id in s.subs
    ensures UpToDate(Next(s, OfferCheck(n, x)), id)
  {
    hide SubInv, Registry, SubsInv, Running, Events, Reaching;
    var t := Next(s, OfferCheck(n, x));
    assert UpToDate(s, id);
    if s.subs[id].active { ReachingKept(s, t, n, id); }
  }

  lemma MissUpToDate(s: Sys, n: nat, x: nat, id: nat)
    requires Inv(s) && Enabled(s, VisitMiss(n, x)) && id in s.subs
    ensures UpToDate(Next(s, VisitMiss(n, x)), id)
  {
    hide SubInv, Registry, SubsInv, Running, Events, Reaching;
    var t := Next(s, VisitMiss(n, x));
    assert UpToDate(s, id);
    if id in s.registered { ReachingKept(s, t, n, id); }
  }

  lemma SendUpToDate(s: Sys, n: nat, id: nat)
    requires Inv(s) && Enabled(s, OfferSend(n)) && id in s.subs
    ensures UpToDate(Next(s, OfferSend(n)), id)
  {
    hide SubInv, Registry, Running;
    var t, x := Next(s, OfferSend(n)), s.visits[n].sending.value;
    assert UpToDate(s, id);
    if s.subs[x].exited {
      assert Reaching(t, id) == Reaching(s, id);
    } else if !s.overlap && x == id {
      assert VisitInv(s, s.visits[n]) && Comes(s.visits[n], id);
      assert Reaching(s, id) && !Reaching(t, id);
      OfferedEvent(s.subs[id], s.visits[n].event, s.queueSize);
      hide Accept, Events;
      assert Events(t.subs[id].offered) + [] == Events(t.subs[id].offered);
      AcceptKeepsFlags(s.subs[id], s.visits[n].event, s.queueSize);
    } else if x != id {
      hide Reaching;
      ReachingKept(s, t, n, id);
    }
  }

  lemma OfferedEvent(sub: Sub, e: Event, queueSize: nat)
    ensures Events(Accept(sub, e, queueSize).offered) == Events(sub.offered) + [e]
    ensures Accept(sub, e, queueSize).since == sub.since
  {
  }

  lemma BeginUpToDate(s: Sys, n: nat, e: Event, id: nat)
    requires Inv(s) && Enabled(s, NotifyBegin(n, e)) && id in s.subs
    ensures UpToDate(Next(s, NotifyBegin(n, e)), id)
  {
    hide SubInv, SubsInv, Running;
    var t := Next(s, NotifyBegin(n, e));
    assert UpToDate(s, id);
    var sub := s.subs[id];
    if id in s.registered && sub.active && !s.closed && !t.overlap {
      assert !Reaching(s, id);
      assert Comes(t.visits[n], id);
      assert (s.log + [e])[sub.since..] == s.log[sub.since..] + [e];
      assert Events(sub.offered) + [] == Events(sub.offered);
    } else if s.closed {
      assert t == s;
    }
  }

  lemma EndUpToDate(s: Sys, n: nat, id: nat)
    requires Inv(s) && Enabled(s, NotifyEnd(n)) && id in s.subs
    ensures UpToDate(Next(s, NotifyEnd(n)), id)
  {
    hide SubInv, SubsInv, Running, Events;
    assert UpToDate(s, id);
    var t := Next(s, NotifyEnd(n));
    if Reaching(s, id) {
      var m :| m in s.visits && Comes(s.visits[m], id);
      assert m in t.visits && t.visits[m] == s.visits[m];
    }
    assert Reaching(t, id) == Reaching(s, id);
  }

  lemma ReachUpToDate(s: Sys, x: nat, reached: set<nat>, caught: bool, id: nat)
    requires Inv(s) && Enabled(s, SubscribeStore(x, reached, caught)) && id in s.subs && id != x
    ensures UpToDate(Next(s, SubscribeStore(x, reached, caught)), id)
  {
    hide SubInv, SubsInv, Registry, Notification, Running, Events;
    assert UpToDate(s, id);
    ReachOthers(s, Next(s, SubscribeStore(x, reached, caught)), reached, x, id);
    hide Reach, Reaching;
  }

  lemma ReachOthers(s: Sys, t: Sys, reached: set<nat>, x: nat, id: nat)
    requires t.visits == Reach(s.visits, reached, x) && id != x
    ensures Reaching(t, id) == Reaching(s, id)
  {
    if Reaching(s, id) {
      var n :| n in s.visits && Comes(s.visits[n], id);
      assert n in t.visits && Comes(t.visits[n], id);
    }
  }

  lemma NextKeepsInv(s: Sys, step: Step)
    requires Inv(s) && Enabled(s, step)
    ensures Inv(Next(s, step))
  {
    NextKeepsSubs(s, step);
    NextKeepsRegistry(s, step);
    NextKeepsNotification(s, step);
    NextKeepsCount(s, step);
    forall id | id in Next(s, step).subs ensures UpToDate(Next(s, step), id) { NextKeepsUpToDate(s, step, id); }
    hide SubsInv, Registry, Notification, Running, UpToDate, Next, Enabled;
  }

  /** Over every interleaving. */
  lemma {:induction false} RunKeepsInv(s: Sys, steps: seq<Step>)
    requires Inv(s) && Possible(s, steps)
    ensures Inv(Run(s, steps))
    decreases |steps|
  {
    hide Inv, Next, Enabled;
    if steps != [] {
      NextKeepsInv(s, steps[0]);
      RunKeepsInv(Next(s, steps[0]), steps[1..]);
    }
  }

  lemma RunFirst(s: Sys, step: Step, rest: seq<Step>)
    requires Enabled(s, step) && Possible(Next(s, step), rest)
    ensures Possible(s, [step] + rest) && Run(s, [step] + rest) == Run(Next(s, step), rest)
  {
    hide Next, Enabled;
    assert ([step] + rest)[1..] == rest;
  }

  lemma {:induction false} RunSnoc(s: Sys, steps: seq<Step>, step: Step)
    requires Possible(s, steps) && Enabled(Run(s, steps), step)
    ensures Possible(s, steps + [step]) && Run(s, steps + [step]) == Next(Run(s, steps), step)
    decreases |steps|
  {
    hide Next, Enabled;
    if steps == [] {
      assert [] + [step] == [step] && [step][1..] == [];
      assert Possible(Next(s, step), []);
    } else {
      RunSnoc(Next(s, steps[0]), steps[1..], step);
      assert (steps + [step])[1..] == steps[1..] + [step];
    }
  }

  lemma RunTwo(s: Sys, a: Step, b: Step)
    requires Enabled(s, a) && Enabled(Next(s, a), b)
    ensures Possible(s, [a, b]) && Run(s, [a, b]) == Next(Next(s, a), b)
  {
    hide Next, Enabled;
    assert [a, b][1..] == [b] && [b][1..] == [];
    assert Possible(Next(Next(s, a), b), []);
    assert Possible(Next(s, a), [b]) && Run(Next(s, a), [b]) == Next(Next(s, a), b);
  }

  lemma RunThree(s: Sys, a: Step, b: Step, c: Step)
    requires Enabled(s, a) && Enabled(Next(s, a), b) && Enabled(Next(Next(s, a), b), c)
    ensures Possible(s, [a, b, c]) && Run(s, [a, b, c]) == Next(Next(Next(s, a), b), c)
  {
    hide Next, Enabled;
    RunTwo(Next(s, a), b, c);
    assert [a, b, c][1..] == [b, c];
  }

  lemma {:induction false} RunAppend(s: Sys, a: seq<Step>, b: seq<Step>)
    requires Possible(s, a) && Possible(Run(s, a), b)
    ensures Possible(s, a + b) && Run(s, a + b) == Run(Run(s, a), b)
    decreases |a|
  {
    hide Next, Enabled;
    if a == [] {
      assert a + b == b;
    } else {
      RunAppend(Next(s, a[0]), a[1..], b);
      assert (a + b)[1..] == a[1..] + b;
    }
  }

  /** Some run leads from `s` to `t`. */
  ghost predicate Reaches(s: Sys, t: Sys) {
    exists steps :: Possible(s, steps) && Run(s, steps) == t
  }

  lemma ReachesSelf(s: Sys)
    ensures Reaches(s, s)
  {
    assert Possible(s, []) && Run(s, []) == s;
  }

  lemma ReachesNext(s: Sys, t: Sys, step: Step)
    requires Reaches(s, t) && Enabled(t, step)
    ensures Reaches(s, Next(t, step))
  {
    hide Next, Enabled, Possible, Run;
    var steps :| Possible(s, steps) && Run(s, steps) == t;
    RunSnoc(s, steps, step);
  }

  lemma ReachesKeepsInv(s: Sys, t: Sys)
    requires Inv(s) && Reaches(s, t)
    ensures Inv(t)
  {
    hide Inv, Possible, Run;
    var steps :| Possible(s, steps) && Run(s, steps) == t;
    RunKeepsInv(s, steps);
  }

  // ----- consequences -----

  /** Delivered and then queued events are an in-order subsequence of the offered ones. */
  ghost predicate Subsequence(a: seq<Event>, b: seq<Event>)
    decreases |b|
  {
    if a == [] then true
    else if b == [] then false
    else if a[|a| - 1] == b[|b| - 1] && Subsequence(a[..|a| - 1], b[..|b| - 1]) then true
    else Subsequence(a, b[..|b| - 1])
  }

  lemma SubsequenceSnoc(a: seq<Event>, b: seq<Event>, e: Event)
    requires Subsequence(a, b)
    ensures Subsequence(a, b + [e]) && Subsequence(a + [e], b + [e])
  {
    assert (b + [e])[..|b + [e]| - 1] == b && (a + [e])[..|a + [e]| - 1] == a;
  }

  lemma {:induction false} TakenSubsequence(offered: seq<Offer>)
    ensures Subsequence(Taken(offered), Events(offered))
    ensures Dropped(offered) == 0 ==> Taken(offered) == Events(offered)
  {
    hide Subsequence;
    if offered == [] {
      NothingSubsequence(Events(offered));
    } else {
      var n := |offered| - 1;
      var before, o := offered[..n], offered[n];
      TakenSubsequence(before);
      SubsequenceSnoc(Taken(before), Events(before), o.event);
      OfferedMore(before, o);
      assert offered == before + [o] && Events(offered) == Events(before) + [o.event];
      assert Taken(before) + [] == Taken(before);
      hide Taken, Dropped, Events;
    }
  }

  lemma NothingSubsequence(b: seq<Event>)
    ensures Subsequence([], b)
  {
  }

  /** What one subscription has seen, in every reachable state. */
  lemma QueueAccounts(queueSize: nat, steps: seq<Step>, id: nat)
    requires Possible(Initial(queueSize), steps) && id in Run(Initial(queueSize), steps).subs
    ensures var s := Run(Initial(queueSize), steps);
            var sub := s.subs[id];
            && |sub.queue| <= s.queueSize
            && |sub.offered| == |sub.delivered| + |sub.queue| + Dropped(sub.offered)
            && Subsequence(sub.delivered + sub.queue, Events(sub.offered))
            && (|sub.offered| <= s.queueSize ==> sub.delivered + sub.queue == Events(sub.offered))
            && (sub.exited ==> !sub.active)
  {
    hide Next, Enabled;
    InitialInv(queueSize);
    RunKeepsInv(Initial(queueSize), steps);
    var sub := Run(Initial(queueSize), steps).subs[id];
    TakenSubsequence(sub.offered);
  }

  lemma InitialInv(queueSize: nat)
    ensures Inv(Initial(queueSize))
  {
    assert Running(map[]) == {};
  }

  /** A step drops an event exactly when it sends one to a subscription whose queue is full. */
  lemma DropsOnlyWhenFull(s: Sys, step: Step, id: nat)
    requires Inv(s) && Enabled(s, step) && id in s.subs
    ensures id in Next(s, step).subs
    ensures Dropped(Next(s, step).subs[id].offered) > Dropped(s.subs[id].offered) <==>
            step.OfferSend? && s.visits[step.n].sending == Some(id) && !s.subs[id].exited &&
            |s.subs[id].queue| == s.queueSize
  {
    hide UpToDate, AllUpToDate, Accept, Notification, Reach, SubsInv, SubInv, Running;
    if step.OfferSend? && s.visits[step.n].sending == Some(id) && !s.subs[id].exited {
      SubsAt(s, id) by { InvSubs(s); }
      AcceptKeepsInv(s.subs[id], s.visits[step.n].event, s.queueSize);
    }
    if step.SubscribeStore? { CheckedApart(s); }
  }

  lemma InvRegistry(s: Sys)
    requires Inv(s)
    ensures Registry(s)
  {
  }

  /** An unsubscription all the way. */
  lemma Unsubscribes(s: Sys, id: nat, t: Sys)
    requires !s.panicked && id in s.subs && id in s.registered && s.subs[id].started
    requires t == s.(registered := s.registered - {id}, leaving := s.leaving + {id} - {id},
                     dropping := s.dropping + {id} - {id}, subs := s.subs[id := Cancelled(Inactive(s.subs[id]))])
    ensures var steps := [UnsubDelete(id), UnsubDeactivate(id), UnsubCancel(id)];
            Possible(s, steps) && Run(s, steps) == t
  {
    var a := s.(registered := s.registered - {id}, leaving := s.leaving + {id});
    var b := a.(leaving := a.leaving - {id}, dropping := a.dropping + {id}, subs := a.subs[id := Inactive(a.subs[id])]);
    assert Next(s, UnsubDelete(id)) == a;
    assert Next(a, UnsubDeactivate(id)) == b;
    assert b.subs[id := Cancelled(b.subs[id])] == s.subs[id := Cancelled(Inactive(s.subs[id]))];
    assert Next(b, UnsubCancel(id)) == t;
    RunThree(s, UnsubDelete(id), UnsubDeactivate(id), UnsubCancel(id));
  }

  lemma InvSubs(s: Sys)
    requires Inv(s)
    ensures SubsInv(s)
  {
  }
}
