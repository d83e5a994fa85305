/** Notify of core/observer.go finds a subscription active and then sends: when the queue has been
    closed in between, and when it cannot be. */
module ObserverSend {
  import opened Types
  import opened Observers

  /** A processor has exited at the end of a run exactly when it had before or exits in it. */
  lemma {:induction false} ExitedBy(s: Sys, steps: seq<Step>, id: nat)
    requires Inv(s) && Possible(s, steps) && id in s.subs
    ensures id in Run(s, steps).subs
    ensures Run(s, steps).subs[id].exited <==> s.subs[id].exited || Exit(id) in steps
    decreases |steps|
  {
    hide Inv, Next, Enabled;
    if steps != [] {
      NextKeepsInv(s, steps[0]);
      ExitedStep(s, steps[0], id);
      ExitedBy(Next(s, steps[0]), steps[1..], id);
      assert steps == [steps[0]] + steps[1..];
    }
  }

  lemma ExitedStep(s: Sys, step: Step, id: nat)
    requires Inv(s) && Enabled(s, step) && id in s.subs
    ensures id in Next(s, step).subs
    ensures Next(s, step).subs[id].exited <==> s.subs[id].exited || step == Exit(id)
  {
    hide UpToDate, AllUpToDate, SubInv, SubsInv, Notification, Running, Reach;
    CheckedApart(s);
    if step.OfferSend? {
      var x := s.visits[step.n].sending.value;
      AcceptKeepsFlags(s.subs[x], s.visits[step.n].event, s.queueSize);
    }
    hide Accept, Registry;
  }

  /** A notifier has found a subscription active. When it sends, it panics if and only if the
      processor has exited in between. */
  lemma SendPanics(s: Sys, n: nat, id: nat, steps: seq<Step>)
    requires Inv(s) && Enabled(s, OfferCheck(n, id)) && s.subs[id].active
    requires var t := Next(s, OfferCheck(n, id));
             Possible(t, steps) && Enabled(Run(t, steps), OfferSend(n)) && Run(t, steps).visits[n].sending == Some(id)
    ensures Next(Run(Next(s, OfferCheck(n, id)), steps), OfferSend(n)).panicked <==> Exit(id) in steps
  {
    hide Possible, Run, Inv;
    var t := Next(s, OfferCheck(n, id));
    assert !s.subs[id].exited by { SubsAt(s, id) by { InvSubs(s); } }
    NextKeepsInv(s, OfferCheck(n, id));
    ExitedBy(t, steps, id);
  }

  /** The step clears the `active` flag of a subscription that some notifier is about to send to. */
  predicate Disturbs(s: Sys, step: Step) {
    (step.UnsubDeactivate? || step.CloseDeactivate?) &&
    exists n :: n in s.visits && s.visits[n].sending == Some(step.id)
  }

  /** No step of the run does. */
  ghost predicate Undisturbed(s: Sys, steps: seq<Step>)
    requires Possible(s, steps)
    decreases |steps|
  {
    steps != [] ==> !Disturbs(s, steps[0]) && Undisturbed(Next(s, steps[0]), steps[1..])
  }

  /** Whoever is about to be sent to is active. */
  ghost predicate SendsToActive(s: Sys) {
    forall n :: n in s.visits && s.visits[n].sending.Some? ==>
      s.visits[n].sending.value in s.subs && s.subs[s.visits[n].sending.value].active
  }

  lemma ActiveStays(s: Sys, step: Step, id: nat)
    requires Registry(s) && Enabled(s, step) && id in s.subs && s.subs[id].active
    requires step != UnsubDeactivate(id) && step != CloseDeactivate(id)
    ensures id in Next(s, step).subs && Next(s, step).subs[id].active
  {
    CheckedApart(s);
    if step.OfferSend? {
      var x := s.visits[step.n].sending.value;
      AcceptKeepsFlags(s.subs[x], s.visits[step.n].event, s.queueSize);
    }
    hide Accept, Reach, Registry;
  }

  /** What a notifier is about to send to, it was before or has just found active. */
  lemma SendsBefore(s: Sys, step: Step, n: nat)
    requires Enabled(s, step) && n in Next(s, step).visits && Next(s, step).visits[n].sending.Some?
    ensures var to := Next(s, step).visits[n].sending;
            (n in s.visits && s.visits[n].sending == to) ||
            (step == OfferCheck(n, to.value) && to.value in s.subs && s.subs[to.value].active)
  {
    hide Accept, Inactive, Cancelled, FreshSub, Runs;
    var t := Next(s, step);
    if Aside(step) { AsideKeeps(s, step); }
    match step {
      case SubscribeStore(id, reached, _) => assert t.visits == Reach(s.visits, reached, id);
      case OfferCheck(m, _) => assert t.visits == s.visits[m := t.visits[m]];
      case OfferSend(m) => assert t.visits == s.visits || t.visits == s.visits[m := t.visits[m]];
      case VisitMiss(m, _) => assert t.visits == s.visits[m := t.visits[m]];
      case NotifyBegin(m, _) => assert t.visits == s.visits || t.visits[m].sending.None?;
      case _ =>
    }
  }

  lemma SendsSafely(s: Sys, step: Step)
    requires SubsInv(s) && Enabled(s, step) && SendsToActive(s)
    ensures !Next(s, step).panicked
  {
    if step.OfferSend? { SubsAt(s, s.visits[step.n].sending.value); }
    hide Accept, Reach, SubsInv, SubInv;
  }

  lemma UndisturbedStep(s: Sys, step: Step)
    requires Inv(s) && Enabled(s, step) && SendsToActive(s) && !Disturbs(s, step)
    ensures SendsToActive(Next(s, step)) && !Next(s, step).panicked
  {
    hide Inv, Next, Enabled;
    var t := Next(s, step);
    InvSubs(s);
    SendsSafely(s, step);
    forall n | n in t.visits && t.visits[n].sending.Some?
      ensures t.visits[n].sending.value in t.subs && t.subs[t.visits[n].sending.value].active
    {
      SendsBefore(s, step, n);
      InvRegistry(s);
      ActiveStays(s, step, t.visits[n].sending.value);
    }
  }

  /** Over every run: if no subscription is deactivated while a notifier is about to send to it, nothing
      is ever sent to a closed queue. */
  lemma {:induction false} NoPanic(s: Sys, steps: seq<Step>)
    requires Inv(s) && SendsToActive(s) && !s.panicked && Possible(s, steps) && Undisturbed(s, steps)
    ensures !Run(s, steps).panicked
    decreases |steps|
  {
    hide Inv, Next, Enabled, SendsToActive, Disturbs;
    if steps != [] {
      NextKeepsInv(s, steps[0]);
      UndisturbedStep(s, steps[0]);
      NoPanic(Next(s, steps[0]), steps[1..]);
    }
  }

  lemma ExitsAndSends(s: Sys, n: nat, id: nat)
    requires !s.panicked && n in s.visits && s.visits[n].sending == Some(id)
    requires id in s.subs && Runs(s.subs[id]) && s.subs[id].cancelled
    ensures Possible(s, [Exit(id), OfferSend(n)]) && Run(s, [Exit(id), OfferSend(n)]).panicked
  {
    RunTwo(s, Exit(id), OfferSend(n));
  }

  /** Otherwise it can be: whenever a notifier is about to send to a registered subscription that runs,
      an unsubscription that goes all the way makes the send panic. */
  lemma CanPanic(s: Sys, n: nat, id: nat)
    requires !s.panicked && n in s.visits && s.visits[n].sending == Some(id)
    requires id in s.subs && id in s.registered && Runs(s.subs[id])
    ensures var steps := [UnsubDelete(id), UnsubDeactivate(id), UnsubCancel(id)] + [Exit(id), OfferSend(n)];
            Possible(s, steps) && Run(s, steps).panicked
  {
    hide Next, Enabled, Possible, Run;
    var t := s.(registered := s.registered - {id}, leaving := s.leaving + {id} - {id},
                dropping := s.dropping + {id} - {id}, subs := s.subs[id := Cancelled(Inactive(s.subs[id]))]);
    Unsubscribes(s, id, t);
    ExitsAndSends(t, n, id);
    RunAppend(s, [UnsubDelete(id), UnsubDeactivate(id), UnsubCancel(id)], [Exit(id), OfferSend(n)]);
  }
}
