/** What Close of core/observer.go achieves: when its wait can end, and what holds from then on. */
module ObserverClose {
  import opened Types
  import opened StateEngine
  import opened Observers
  import opened ObserverSend

  /** Every processor has exited and nothing is active any more. */
  predicate Settled(s: Sys) {
    forall id :: id in s.subs ==> s.subs[id].exited && !s.subs[id].active
  }

  predicate AllStarted(s: Sys) {
    forall id :: id in s.subs ==> s.subs[id].started
  }

  /** No Subscribe call is under way past its check. */
  predicate AllReturned(s: Sys) {
    s.checked == {} && AllStarted(s)
  }

  // ----- what holds once the wait has ended -----

  /** When the wait ends, a processor that has not exited is one that has not been started. */
  lemma SettledNow(s: Sys)
    requires Inv(s) && s.wg == 0
    ensures Settled(s) <==> AllStarted(s)
  {
    hide UpToDate, Registry, Notification;
    assert Running(s.subs) == {};
    forall id | id in s.subs && s.subs[id].started ensures s.subs[id].exited && !s.subs[id].active {
      assert id !in Running(s.subs);
      SubsAt(s, id);
    }
    if Settled(s) {
      forall id | id in s.subs ensures s.subs[id].started { SubsAt(s, id); }
    }
  }

  lemma SettledStep(s: Sys, step: Step)
    requires Inv(s) && Enabled(s, step) && s.closed && s.checked == {} && Settled(s)
    ensures var t := Next(s, step); t.closed && t.checked == {} && Settled(t)
  {
    hide UpToDate, SubInv, SubsInv, AllUpToDate, Notification, Running, Reach;
    if step.OfferSend? {
      var x := s.visits[step.n].sending.value;
      AcceptKeepsFlags(s.subs[x], s.visits[step.n].event, s.queueSize);
    }
    hide Accept;
  }

  lemma {:induction false} SettledStays(s: Sys, steps: seq<Step>)
    requires Inv(s) && Possible(s, steps) && s.closed && s.checked == {} && Settled(s)
    ensures Settled(Run(s, steps))
    decreases |steps|
  {
    hide Inv, Next, Enabled, Settled;
    if steps != [] {
      NextKeepsInv(s, steps[0]);
      SettledStep(s, steps[0]);
      SettledStays(Next(s, steps[0]), steps[1..]);
    }
  }

  /** Close's wait has ended. Every processor has exited and nothing is active, then and for ever, if
      and only if no Subscribe call that passed its check before is still on its way. */
  lemma {:induction false} CloseWaitsForAll(s: Sys)
    requires Inv(s) && s.swept && s.wg == 0 && !s.panicked
    ensures (forall steps :: Possible(s, steps) ==> Settled(Run(s, steps))) <==> AllReturned(s)
  {
    hide Inv;
    SettledNow(s);
    assert s.closed by { SweptClosed(s); }
    if AllReturned(s) {
      forall steps | Possible(s, steps) ensures Settled(Run(s, steps)) { SettledStays(s, steps); }
    } else if s.checked == {} {
      assert Possible(s, []) && Run(s, []) == s;
    } else {
      var id :| id in s.checked;
      var steps := LateStore(s, id);
    }
  }

  lemma SweptClosed(s: Sys)
    requires Inv(s) && s.swept
    ensures s.closed && s.toCancel == {} && s.closing.None?
  {
  }

  lemma LateStore(s: Sys, id: nat) returns (steps: seq<Step>)
    requires id in s.checked && !s.panicked
    ensures Possible(s, steps) && !Settled(Run(s, steps))
  {
    var step := SubscribeStore(id, {}, false);
    steps := [step];
    assert Possible(Next(s, step), []);
    assert steps[1..] == [] && Run(s, steps) == Next(s, step);
    assert id in Next(s, step).subs;
  }

  /** A Subscribe call passes its check, Close does all its work and its wait ends; then the call
      registers an active subscription, whose processor runs and cannot exit. */
  lemma LateSubscriber(queueSize: nat)
    ensures var before := [SubscribeCheck, CloseBegin, CloseSwept];
            && Possible(Initial(queueSize), before)
            && var s := Run(Initial(queueSize), before);
               && Inv(s) && s.swept && s.wg == 0 && Settled(s) && !AllReturned(s)
               && var after := [SubscribeStore(1, {}, false), SubscribeStart(1)];
                  && Possible(s, after)
                  && var t := Run(s, after);
                     1 in t.subs && t.subs[1].active && Runs(t.subs[1]) && t.wg == 1 && !Enabled(t, Exit(1))
  {
    InitialInv(queueSize);
    var s0 := Initial(queueSize);
    hide Inv;
    NextKeepsInv(s0, SubscribeCheck);
    var s1 := Next(s0, SubscribeCheck);
    NextKeepsInv(s1, CloseBegin);
    var s2 := Next(s1, CloseBegin);
    NextKeepsInv(s2, CloseSwept);
    var s3 := Next(s2, CloseSwept);
    RunThree(s0, SubscribeCheck, CloseBegin, CloseSwept);
    var store := SubscribeStore(1, {}, false);
    assert 1 in s3.checked;
    RunTwo(s3, store, SubscribeStart(1));
  }

  // ----- closing while no Subscribe is under way -----

  lemma ReturnedStep(s: Sys, step: Step)
    requires Inv(s) && Enabled(s, step) && s.closed && AllReturned(s)
    ensures Next(s, step).closed && AllReturned(Next(s, step))
  {
    hide UpToDate, SubInv, SubsInv, AllUpToDate, Notification, Running, Reach;
    if step.OfferSend? {
      var x := s.visits[step.n].sending.value;
      AcceptKeepsFlags(s.subs[x], s.visits[step.n].event, s.queueSize);
    }
    hide Accept;
  }

  lemma {:induction false} ReturnedStays(s: Sys, steps: seq<Step>)
    requires Inv(s) && Possible(s, steps) && s.closed && AllReturned(s)
    ensures AllReturned(Run(s, steps))
    decreases |steps|
  {
    hide Inv, Next, Enabled, AllReturned;
    if steps != [] {
      NextKeepsInv(s, steps[0]);
      ReturnedStep(s, steps[0]);
      ReturnedStays(Next(s, steps[0]), steps[1..]);
    }
  }

  /** Every subscription is cancelled, or an unsubscription past its deletion will cancel it. */
  predicate CancelsUnderWay(s: Sys) {
    forall id :: id in s.subs ==> s.subs[id].cancelled || id in s.leaving || id in s.dropping
  }

  /** Close waits for processors that all have their cancel, or will have it from an unsubscription
      that is under way; no Subscribe call is. */
  predicate Draining(s: Sys) {
    s.closed && AllReturned(s) && CancelsUnderWay(s)
  }

  /** While Close ranges: what it has still to cancel, it knows. */
  ghost predicate Sweeping(s: Sys) {
    && s.closed && AllReturned(s)
    && forall id :: id in s.subs ==>
         s.subs[id].cancelled || id in s.leaving || id in s.dropping || id in s.toCancel || s.closing == Some(id)
  }

  /** What has its cancel, or will have it, still has or will. */
  lemma CancelStays(s: Sys, step: Step, id: nat)
    requires Registry(s) && Enabled(s, step) && id in s.subs && id in Next(s, step).subs
    requires s.subs[id].cancelled || id in s.leaving || id in s.dropping
    ensures var t := Next(s, step); t.subs[id].cancelled || id in t.leaving || id in t.dropping
  {
    CheckedApart(s);
    if step.OfferSend? {
      var x := s.visits[step.n].sending.value;
      AcceptKeepsFlags(s.subs[x], s.visits[step.n].event, s.queueSize);
    }
    hide Accept, Reach, Registry;
  }

  /** What Close has still to cancel is cancelled, still to be, or deleted. */
  lemma CloseGoesOn(s: Sys, step: Step, id: nat)
    requires Registry(s) && Enabled(s, step) && s.closed && id in s.subs && id in Next(s, step).subs
    requires id in s.toCancel || s.closing == Some(id)
    ensures var t := Next(s, step);
            t.subs[id].cancelled || id in t.leaving || id in t.dropping || id in t.toCancel || t.closing == Some(id)
  {
    CheckedApart(s);
    if step.CloseMiss? { InvOff(s, step.id); }
    hide Accept, Reach, Registry;
  }

  lemma InvOff(s: Sys, id: nat)
    requires Registry(s) && id in s.toCancel && id !in s.registered
    ensures id in s.subs && (s.subs[id].cancelled || id in s.leaving || id in s.dropping)
  {
  }

  lemma SweepingStep(s: Sys, step: Step)
    requires Inv(s) && Enabled(s, step) && Sweeping(s)
    ensures Sweeping(Next(s, step))
  {
    ReturnedStep(s, step);
    InvRegistry(s);
    SameKeys(s, step);
    hide AllReturned, Inv, Registry, Enabled, Next;
    var t := Next(s, step);
    forall id | id in t.subs
      ensures t.subs[id].cancelled || id in t.leaving || id in t.dropping || id in t.toCancel || t.closing == Some(id)
    {
      if id in s.toCancel || s.closing == Some(id) { CloseGoesOn(s, step, id); } else { CancelStays(s, step, id); }
    }
  }

  lemma SameKeys(s: Sys, step: Step)
    requires Enabled(s, step) && AllReturned(s)
    ensures Next(s, step).subs.Keys == s.subs.Keys
  {
    hide Accept, Reach, Inactive, Cancelled;
    if Aside(step) { AsideKeeps(s, step); }
  }

  lemma {:induction false} SweepingStays(s: Sys, steps: seq<Step>)
    requires Inv(s) && Possible(s, steps) && Sweeping(s)
    ensures Sweeping(Run(s, steps))
    decreases |steps|
  {
    hide Inv, Next, Enabled, Sweeping;
    if steps != [] {
      NextKeepsInv(s, steps[0]);
      SweepingStep(s, steps[0]);
      SweepingStays(Next(s, steps[0]), steps[1..]);
    }
  }

  lemma CloseSweeps(s: Sys)
    requires Inv(s) && AllReturned(s) && !s.closed && Enabled(s, CloseBegin)
    ensures Sweeping(Next(s, CloseBegin))
  {
    InvRegistry(s);
    hide Inv;
  }

  /** If no Subscribe call is under way when Close begins, then after its Range the manager drains:
      the wait can end without anyone else unsubscribing, and when it does, every processor has exited
      and nothing is active. */
  lemma QuietClose(s: Sys, steps: seq<Step>)
    requires Inv(s) && AllReturned(s) && !s.closed && Enabled(s, CloseBegin) && Possible(Next(s, CloseBegin), steps)
    requires Run(Next(s, CloseBegin), steps).swept && !Run(Next(s, CloseBegin), steps).panicked
    ensures var t := Run(Next(s, CloseBegin), steps);
            && Draining(t)
            && (exists more :: Possible(t, more) && NoUnsubscribe(more) && Run(t, more).wg == 0)
            && (t.wg == 0 ==> Settled(t))
  {
    hide Inv, Possible, Run;
    NextKeepsInv(s, CloseBegin);
    RunKeepsInv(Next(s, CloseBegin), steps);
    CloseSweeps(s);
    SweepingStays(Next(s, CloseBegin), steps);
    var t := Run(Next(s, CloseBegin), steps);
    SweptClosed(t);
    WaitCanEnd(t);
    if t.wg == 0 { SettledNow(t); }
  }

  // ----- when the wait can end -----

  /** No new unsubscription; one that is past its deletion may go on. */
  predicate NoUnsubscribe(steps: seq<Step>) {
    forall i :: 0 <= i < |steps| ==> !steps[i].UnsubDelete?
  }

  /** A processor that runs, was never cancelled, and that neither Close nor an unsubscription under
      way is going to cancel. */
  predicate Stranded(s: Sys, id: nat) {
    id in s.subs && Runs(s.subs[id]) && !s.subs[id].cancelled && id !in s.leaving && id !in s.dropping
  }

  lemma StrandedStep(s: Sys, step: Step, id: nat)
    requires Inv(s) && Enabled(s, step) && s.swept && Stranded(s, id) && !step.UnsubDelete?
    ensures Next(s, step).swept && Stranded(Next(s, step), id)
  {
    InvRegistry(s);
    SweptClosed(s);
    CheckedApart(s);
    if step.OfferSend? {
      var x := s.visits[step.n].sending.value;
      AcceptKeepsFlags(s.subs[x], s.visits[step.n].event, s.queueSize);
    }
    hide Inv, Accept, Reach, Members, Duties;
  }

  lemma {:induction false} StrandedStays(s: Sys, steps: seq<Step>, id: nat)
    requires Inv(s) && Possible(s, steps) && s.swept && Stranded(s, id) && NoUnsubscribe(steps)
    ensures Run(s, steps).wg > 0
    decreases |steps|
  {
    hide Inv, Next, Enabled, Stranded;
    if steps == [] {
      StrandedRuns(s, id);
    } else {
      NextKeepsInv(s, steps[0]);
      StrandedStep(s, steps[0], id);
      StrandedStays(Next(s, steps[0]), steps[1..], id);
    }
  }

  lemma StrandedRuns(s: Sys, id: nat)
    requires Inv(s) && Stranded(s, id)
    ensures s.wg > 0
  {
    hide UpToDate, SubInv;
    assert id in Running(s.subs);
  }

  /** The unsubscriptions under way, by what they have still to do. */
  function Pending(s: Sys): nat { 2 * |s.leaving| + |s.dropping - s.leaving| }

  /** A step that brings the wait closer to its end: a cancelled processor exits, or an unsubscription
      under way goes on. */
  lemma NextToExit(s: Sys) returns (step: Step)
    requires Inv(s) && !s.panicked && s.wg != 0 && forall id :: !Stranded(s, id)
    ensures Enabled(s, step) && !step.UnsubDelete?
    ensures var t := Next(s, step);
            && (forall x :: !Stranded(t, x)) && s.wg > 0 && !t.panicked
            && (t.wg < s.wg || (t.wg == s.wg && Pending(t) < Pending(s)))
  {
    InvRegistry(s);
    var id := SomeRuns(s);
    assert !Stranded(s, id);
    hide Inv, Registry;
    if s.subs[id].cancelled {
      step := Exit(id);
      ExitNext(s, id);
    } else if id in s.leaving {
      step := UnsubDeactivate(id);
      LeavingNext(s, id);
    } else {
      step := UnsubCancel(id);
      DroppingNext(s, id);
    }
  }

  lemma ExitNext(s: Sys, id: nat)
    requires !s.panicked && id in s.subs && Runs(s.subs[id]) && s.subs[id].cancelled && forall x :: !Stranded(s, x)
    ensures Enabled(s, Exit(id))
    ensures var t := Next(s, Exit(id)); (forall x :: !Stranded(t, x)) && t.wg == s.wg - 1 && !t.panicked
  {
    var t := Next(s, Exit(id));
    forall x ensures !Stranded(t, x) { assert !Stranded(s, x); }
  }

  lemma LeavingNext(s: Sys, id: nat)
    requires !s.panicked && id in s.subs && id in s.leaving && forall x :: !Stranded(s, x)
    ensures Enabled(s, UnsubDeactivate(id))
    ensures var t := Next(s, UnsubDeactivate(id));
            (forall x :: !Stranded(t, x)) && t.wg == s.wg && !t.panicked && Pending(t) < Pending(s)
  {
    var t := Next(s, UnsubDeactivate(id));
    LeavingShrinks(s, id);
    forall x ensures !Stranded(t, x) { assert !Stranded(s, x); }
  }

  lemma DroppingNext(s: Sys, id: nat)
    requires !s.panicked && id in s.subs && id in s.dropping && id !in s.leaving && forall x :: !Stranded(s, x)
    ensures Enabled(s, UnsubCancel(id))
    ensures var t := Next(s, UnsubCancel(id));
            (forall x :: !Stranded(t, x)) && t.wg == s.wg && !t.panicked && Pending(t) < Pending(s)
  {
    var t := Next(s, UnsubCancel(id));
    DroppingShrinks(s, id);
    forall x ensures !Stranded(t, x) { assert !Stranded(s, x); }
  }

  lemma LeavingShrinks(s: Sys, id: nat)
    requires id in s.leaving
    ensures 2 * |s.leaving - {id}| + |(s.dropping + {id}) - (s.leaving - {id})| < Pending(s)
  {
    assert (s.dropping + {id}) - (s.leaving - {id}) == (s.dropping - s.leaving) + {id};
  }

  lemma DroppingShrinks(s: Sys, id: nat)
    requires id in s.dropping && id !in s.leaving
    ensures 2 * |s.leaving| + |(s.dropping - {id}) - s.leaving| < Pending(s)
  {
    assert (s.dropping - {id}) - s.leaving == (s.dropping - s.leaving) - {id};
  }

  lemma SomeRuns(s: Sys) returns (id: nat)
    requires Inv(s) && s.wg != 0
    ensures id in s.subs && Runs(s.subs[id]) && s.wg > 0
  {
    hide UpToDate, Registry, Notification;
    assert Running(s.subs) != {};
    id :| id in Running(s.subs);
  }

  /** Step by step, all processors can exit. */
  lemma {:induction false} AllExit(s: Sys) returns (steps: seq<Step>)
    requires Inv(s) && !s.panicked && forall id :: !Stranded(s, id)
    ensures Possible(s, steps) && NoUnsubscribe(steps) && Run(s, steps).wg == 0
    decreases s.wg, Pending(s)
  {
    if s.wg == 0 {
      steps := [];
    } else {
      hide Inv, Possible, Run, Next, Enabled, Stranded, Pending, NoUnsubscribe;
      var step := NextToExit(s);
      NextKeepsInv(s, step);
      var rest := AllExit(Next(s, step));
      steps := [step] + rest;
      RunFirst(s, step, rest);
      NoneAdded(step, rest);
    }
  }

  lemma NoneAdded(step: Step, rest: seq<Step>)
    requires !step.UnsubDelete? && NoUnsubscribe(rest)
    ensures NoUnsubscribe([step] + rest)
  {
  }

  /** After Close's Range, its wait can end without a new unsubscription if and only if every running
      processor has been cancelled or is going to be by an unsubscription under way. */
  lemma {:induction false} WaitCanEnd(s: Sys)
    requires Inv(s) && s.swept && !s.panicked
    ensures (exists steps :: Possible(s, steps) && NoUnsubscribe(steps) && Run(s, steps).wg == 0) <==>
            forall id :: !Stranded(s, id)
  {
    hide Inv, Stranded;
    if steps :| Possible(s, steps) && NoUnsubscribe(steps) && Run(s, steps).wg == 0 {
      forall id ensures !Stranded(s, id) {
        if Stranded(s, id) { StrandedStays(s, steps, id); }
      }
    }
    if forall id :: !Stranded(s, id) {
      var steps := AllExit(s);
    }
  }

  // ----- and why it does end -----

  ghost function Backlog(subs: map<nat, Sub>): nat
    decreases |subs|
  {
    if subs.Keys == {} then 0 else
    var id :| id in subs.Keys;
    (if subs[id].exited then 0 else |subs[id].queue| + 1) + Backlog(subs - {id})
  }

  lemma {:induction false} BacklogWith(subs: map<nat, Sub>, id: nat)
    requires id in subs
    ensures Backlog(subs) == (if subs[id].exited then 0 else |subs[id].queue| + 1) + Backlog(subs - {id})
    decreases |subs|
  {
    var x :| x in subs && Backlog(subs) ==
               (if subs[x].exited then 0 else |subs[x].queue| + 1) + Backlog(subs - {x});
    if x != id {
      BacklogWith(subs - {x}, id);
      BacklogWith(subs - {id}, x);
      assert subs - {x} - {id} == subs - {id} - {x};
    }
  }

  lemma BacklogChange(subs: map<nat, Sub>, id: nat, sub: Sub)
    requires id in subs
    ensures Backlog(subs[id := sub]) == Backlog(subs) -
              (if subs[id].exited then 0 else |subs[id].queue| + 1) + (if sub.exited then 0 else |sub.queue| + 1)
  {
    hide Backlog;
    BacklogWith(subs, id);
    BacklogWith(subs[id := sub], id);
    assert subs[id := sub] - {id} == subs - {id};
  }

  /** What the Notify calls under way can still put into queues. */
  ghost function Offers(visits: map<nat, Visit>): nat
    decreases |visits|
  {
    if visits.Keys == {} then 0 else
    var n :| n in visits.Keys;
    VisitOffers(visits[n]) + Offers(visits - {n})
  }

  function VisitOffers(v: Visit): nat { |v.todo| + if v.sending.Some? then 1 else 0 }

  lemma {:induction false} OffersWith(visits: map<nat, Visit>, n: nat)
    requires n in visits
    ensures Offers(visits) == VisitOffers(visits[n]) + Offers(visits - {n})
    decreases |visits|
  {
    var x :| x in visits && Offers(visits) == VisitOffers(visits[x]) + Offers(visits - {x});
    if x != n {
      OffersWith(visits - {x}, n);
      OffersWith(visits - {n}, x);
      assert visits - {x} - {n} == visits - {n} - {x};
    }
  }

  lemma OffersChange(visits: map<nat, Visit>, n: nat, v: Visit)
    requires n in visits
    ensures Offers(visits[n := v]) == Offers(visits) - VisitOffers(visits[n]) + VisitOffers(v)
  {
    OffersWith(visits, n);
    OffersWith(visits[n := v], n);
    assert visits[n := v] - {n} == visits - {n};
  }

  /** What is left to do: events in queues or on their way there, processors that have not exited, and
      unsubscriptions that have not ended or not begun. */
  ghost function Work(s: Sys): nat {
    Backlog(s.subs) + Offers(s.visits) + Unsubs(s)
  }

  function Unsubs(s: Sys): nat { 3 * |s.registered| + 2 * |s.leaving| + |s.dropping| }

  /** While draining, no step adds work; every processor step and every step that ends in a cancel
      removes some, so that after at most Work(s) of them every processor has exited. */
  lemma DrainingProgress(s: Sys, step: Step)
    requires Inv(s) && Draining(s) && Enabled(s, step)
    ensures Draining(Next(s, step)) && Work(Next(s, step)) <= Work(s)
    ensures step.Process? || step.Exit? || step.UnsubDeactivate? || step.UnsubCancel? ==>
              Work(Next(s, step)) < Work(s)
  {
    DrainingStep(s, step);
    BacklogStep(s, step);
    OffersStep(s, step);
    UnsubsStep(s, step);
    hide Inv, Backlog, Offers, Next, Enabled, Draining, Unsubs;
  }

  lemma DrainingStep(s: Sys, step: Step)
    requires Inv(s) && Draining(s) && Enabled(s, step)
    ensures Draining(Next(s, step))
  {
    ReturnedStep(s, step);
    InvRegistry(s);
    SameKeys(s, step);
    hide AllReturned, Inv, Registry, Enabled, Next;
    var t := Next(s, step);
    forall id | id in t.subs ensures t.subs[id].cancelled || id in t.leaving || id in t.dropping {
      CancelStays(s, step, id);
    }
  }

  /** A queue grows by a send alone, and by one event. */
  lemma BacklogStep(s: Sys, step: Step)
    requires Enabled(s, step) && AllReturned(s)
    ensures var b, b' := Backlog(s.subs), Backlog(Next(s, step).subs);
            if step.Process? || step.Exit? then b' < b
            else if step.OfferSend? && !Next(s, step).panicked then b' <= b + 1 else b' == b
  {
    hide Backlog, Accept;
    var t := Next(s, step);
    match step {
      case OfferSend(n) =>
        var id := s.visits[n].sending.value;
        if !s.subs[id].exited {
          BacklogChange(s.subs, id, t.subs[id]);
          AcceptGrows(s.subs[id], s.visits[n].event, s.queueSize);
        }
      case Process(id) => BacklogChange(s.subs, id, t.subs[id]);
      case Exit(id) => BacklogChange(s.subs, id, t.subs[id]);
      case UnsubDeactivate(id) => BacklogChange(s.subs, id, t.subs[id]);
      case UnsubCancel(id) => BacklogChange(s.subs, id, t.subs[id]);
      case CloseDeactivate(id) => BacklogChange(s.subs, id, t.subs[id]);
      case CloseCancel => BacklogChange(s.subs, s.closing.value, t.subs[s.closing.value]);
      case _ =>
    }
  }

  lemma AcceptGrows(sub: Sub, e: Event, queueSize: nat)
    ensures var r := Accept(sub, e, queueSize); |r.queue| <= |sub.queue| + 1 && r.exited == sub.exited
  {
  }

  lemma OffersStep(s: Sys, step: Step)
    requires Enabled(s, step) && AllReturned(s) && s.closed
    ensures var o, o' := Offers(s.visits), Offers(Next(s, step).visits);
            if step.OfferSend? && !Next(s, step).panicked then o' == o - 1 else o' <= o
  {
    hide Offers, Accept;
    var t := Next(s, step);
    match step {
      case OfferCheck(n, id) => OffersChange(s.visits, n, t.visits[n]);
      case VisitMiss(n, id) => OffersChange(s.visits, n, t.visits[n]);
      case OfferSend(n) => if !t.panicked { OffersChange(s.visits, n, t.visits[n]); }
      case NotifyEnd(n) => OffersWith(s.visits, n);
      case _ =>
    }
  }

  lemma UnsubsStep(s: Sys, step: Step)
    requires Enabled(s, step) && AllReturned(s)
    ensures Unsubs(Next(s, step)) <= Unsubs(s)
    ensures step.UnsubDeactivate? || step.UnsubCancel? ==> Unsubs(Next(s, step)) < Unsubs(s)
  {
    hide Accept, Reach, Unsubs;
    var t := Next(s, step);
    match step {
      case UnsubDelete(id) => if id in s.registered { UnsubsMove(s, t, id); }
      case UnsubDeactivate(id) => UnsubsMove(s, t, id);
      case UnsubCancel(id) => UnsubsMove(s, t, id);
      case _ => UnsubsSame(s, t);
    }
  }

  lemma UnsubsSame(s: Sys, t: Sys)
    requires t.registered == s.registered && t.leaving == s.leaving && t.dropping == s.dropping
    ensures Unsubs(t) == Unsubs(s)
  {
  }

  /** An unsubscription that goes on weighs less. */
  lemma UnsubsMove(s: Sys, t: Sys, id: nat)
    requires (id in s.registered && t.registered == s.registered - {id} && t.leaving == s.leaving + {id} &&
              t.dropping == s.dropping) ||
             (id in s.leaving && t.registered == s.registered && t.leaving == s.leaving - {id} &&
              t.dropping == s.dropping + {id}) ||
             (id in s.dropping && t.registered == s.registered && t.leaving == s.leaving &&
              t.dropping == s.dropping - {id})
    ensures Unsubs(t) < Unsubs(s)
  {
  }

  /** While draining, as long as a processor runs, one can exit or an unsubscription under way can go
      on. */
  lemma DrainingNotStuck(s: Sys) returns (step: Step)
    requires Inv(s) && Draining(s) && s.wg > 0 && !s.panicked
    ensures step.Exit? || step.UnsubDeactivate? || step.UnsubCancel?
    ensures Enabled(s, step)
  {
    InvRegistry(s);
    var id := SomeRuns(s);
    if s.subs[id].cancelled {
      step := Exit(id);
    } else if id in s.leaving {
      step := UnsubDeactivate(id);
    } else {
      step := UnsubCancel(id);
    }
  }

  // ----- what an overlapping unsubscription does -----

  /** A subscription that has been deleted misses events although it is still active. */
  lemma DeletedMisses(queueSize: nat, e: Event) returns (s: Sys)
    ensures Reaches(Initial(queueSize), s)
    ensures 1 in s.subs && s.subs[1].active && s.visits == map[] && !s.overlap
    ensures s.log == [e] && s.subs[1].since == 0 && s.subs[1].offered == []
  {
    var s0 := Initial(queueSize);
    s := OneSubscribed(queueSize);
    ReachesNext(s0, s, UnsubDelete(1));
    s := Next(s, UnsubDelete(1));
    ReachesNext(s0, s, NotifyBegin(0, e));
    s := Next(s, NotifyBegin(0, e));
    assert s.visits[0].todo == {};
    ReachesNext(s0, s, NotifyEnd(0));
    s := Next(s, NotifyEnd(0));
  }

  lemma OneSubscribed(queueSize: nat) returns (s: Sys)
    ensures Reaches(Initial(queueSize), s)
    ensures s == Initial(queueSize).(nextID := 1, registered := {1}, wg := 1,
                                     subs := map[1 := FreshSub(0).(started := true)])
  {
    var s0 := Initial(queueSize);
    ReachesSelf(s0);
    hide Reaches;
    var s1 := s0.(nextID := 1, checked := {1});
    assert Next(s0, SubscribeCheck) == s1;
    ReachesNext(s0, s0, SubscribeCheck);
    var s2 := s1.(checked := {}, registered := {1}, subs := map[1 := FreshSub(0)]);
    assert Next(s1, SubscribeStore(1, {}, false)) == s2 by { assert Reach(map[], {}, 1) == map[]; }
    ReachesNext(s0, s1, SubscribeStore(1, {}, false));
    s := s2.(wg := 1, subs := map[1 := FreshSub(0).(started := true)]);
    assert Next(s2, SubscribeStart(1)) == s;
    ReachesNext(s0, s2, SubscribeStart(1));
  }

  /** A notifier finds a subscription active, and an unsubscription makes its send panic. */
  lemma SendOnClosedQueue(queueSize: nat, e: Event) returns (s: Sys)
    ensures Reaches(Initial(queueSize), s)
    ensures 0 in s.visits && s.visits[0].sending == Some(1) && !s.panicked
    ensures var steps := [UnsubDelete(1), UnsubDeactivate(1), UnsubCancel(1)] + [Exit(1), OfferSend(0)];
            Possible(s, steps) && Run(s, steps).panicked
  {
    var s0 := Initial(queueSize);
    s := OneSubscribed(queueSize);
    hide Reaches;
    ReachesNext(s0, s, NotifyBegin(0, e));
    s := Next(s, NotifyBegin(0, e));
    ReachesNext(s0, s, OfferCheck(0, 1));
    s := Next(s, OfferCheck(0, 1));
    CanPanic(s, 0, 1);
  }
}
