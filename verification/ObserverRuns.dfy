/** Concrete interleavings of the calls of core/observer.go: what a Range does or does not see of the
    calls that overlap it, and what overlapping notifications do. */
module ObserverRuns {
  import opened Types
  import opened StateEngine
  import opened Observers
  import opened ObserverClose

  /** Whatever else is under way, every call can begin, and an open manager takes it: a Subscribe call gets
      the next id, a notification ranges over all registered subscriptions and so does Close, and an
      unsubscription takes its subscription off the register. */
  lemma CallsBegin(s: Sys, id: nat, n: nat, e: Event)
    requires Inv(s) && !s.panicked && id in s.registered && s.subs[id].started && n !in s.visits
    ensures Enabled(s, SubscribeCheck) && Enabled(s, NotifyBegin(n, e))
    ensures Enabled(s, UnsubDelete(id)) && Enabled(s, CloseBegin)
    ensures s.closed ==> Next(s, SubscribeCheck) == Next(s, NotifyBegin(n, e)) == Next(s, CloseBegin) == s
    ensures !s.closed ==>
              && Next(s, SubscribeCheck) == s.(nextID := s.nextID + 1, checked := s.checked + {s.nextID + 1})
              && Next(s, NotifyBegin(n, e)).log == s.log + [e] && n in Next(s, NotifyBegin(n, e)).visits
              && Next(s, NotifyBegin(n, e)).visits[n] == Visit(e, s.registered, None)
              && Next(s, CloseBegin).closed && Next(s, CloseBegin).toCancel == s.registered
    ensures Next(s, UnsubDelete(id)) == s.(registered := s.registered - {id}, leaving := s.leaving + {id})
  {
    InvMembers(s);
  }

  /** Whether a subscription that is deleted while a notification ranges is still offered the event is
      open: from one state both endings can be reached. */
  lemma DeletedMeanwhile(queueSize: nat, e: Event) returns (missed: Sys, offered: Sys)
    requires queueSize > 0
    ensures Reaches(Initial(queueSize), missed) && Reaches(Initial(queueSize), offered)
    ensures missed.log == offered.log == [e] && missed.registered == offered.registered == {}
    ensures missed.visits == offered.visits == map[] && 1 in missed.subs && 1 in offered.subs
    ensures missed.subs[1].offered == [] && offered.subs[1].offered == [Offer(e, true)]
  {
    var s0 := Initial(queueSize);
    var s := OneSubscribed(queueSize);
    hide Reaches;
    ReachesNext(s0, s, NotifyBegin(0, e));
    s := Next(s, NotifyBegin(0, e));
    ReachesNext(s0, s, UnsubDelete(1));
    s := Next(s, UnsubDelete(1));
    offered := Visited(s0, s, 0);
    ReachesNext(s0, s, VisitMiss(0, 1));
    missed := Next(s, VisitMiss(0, 1));
    ReachesNext(s0, missed, NotifyEnd(0));
    missed := Next(missed, NotifyEnd(0));
  }

  /** Close's Range can pass by a subscription that an unsubscription has deleted: it is over while the
      subscription is still active, not cancelled, and its processor runs. */
  lemma ClosePassesBy(queueSize: nat) returns (s: Sys)
    ensures Reaches(Initial(queueSize), s)
    ensures s.swept && s.leaving == {1} && s.wg == 1 && 1 in s.subs
    ensures s.subs[1].active && !s.subs[1].cancelled && Runs(s.subs[1])
  {
    var s0 := Initial(queueSize);
    s := OneSubscribed(queueSize);
    hide Reaches;
    ReachesNext(s0, s, CloseBegin);
    s := Next(s, CloseBegin);
    ReachesNext(s0, s, UnsubDelete(1));
    s := Next(s, UnsubDelete(1));
    ReachesNext(s0, s, CloseMiss(1));
    s := Next(s, CloseMiss(1));
    ReachesNext(s0, s, CloseSwept);
    s := Next(s, CloseSwept);
  }

  /** A subscription that is registered while a notification ranges may or may not be reached by it; it
      counts its events from there. */
  lemma JoinsMeanwhile(queueSize: nat, e: Event) returns (reached: Sys, missed: Sys)
    requires queueSize > 0
    ensures Reaches(Initial(queueSize), reached) && Reaches(Initial(queueSize), missed)
    ensures reached.log == missed.log == [e] && reached.visits == missed.visits == map[]
    ensures 1 in reached.subs && reached.subs[1].since == 0 && reached.subs[1].offered == [Offer(e, true)]
    ensures 1 in missed.subs && missed.subs[1].since == 1 && missed.subs[1].offered == []
  {
    var s0 := Initial(queueSize);
    hide Reaches;
    var s := Joining(s0, e);
    assert s.visits.Keys * {0} == {0};
    ReachesNext(s0, s, SubscribeStore(1, {0}, false));
    reached := Next(s, SubscribeStore(1, {0}, false));
    reached := Visited(s0, reached, 0);
    ReachesNext(s0, s, SubscribeStore(1, {}, false));
    missed := Next(s, SubscribeStore(1, {}, false));
    assert missed.visits[0] == s.visits[0];
    ReachesNext(s0, missed, NotifyEnd(0));
    missed := Next(missed, NotifyEnd(0));
  }

  /** A Subscribe call is past its check and a notification has begun. */
  lemma Joining(s0: Sys, e: Event) returns (s: Sys)
    requires s0 == Initial(s0.queueSize)
    ensures Reaches(s0, s)
    ensures s == s0.(nextID := 1, checked := {1}, log := [e], visits := map[0 := Visit(e, {}, None)])
  {
    ReachesSelf(s0);
    hide Reaches;
    ReachesNext(s0, s0, SubscribeCheck);
    s := Next(s0, SubscribeCheck);
    ReachesNext(s0, s, NotifyBegin(0, e));
    s := Next(s, NotifyBegin(0, e));
  }

  /** A subscription that is registered while Close ranges may still be cancelled by it. */
  lemma CloseCatches(queueSize: nat) returns (s: Sys)
    ensures Reaches(Initial(queueSize), s)
    ensures s.swept && 1 in s.subs && s.subs[1].cancelled && !s.subs[1].active && s.registered == {1}
  {
    var s0 := Initial(queueSize);
    ReachesSelf(s0);
    hide Reaches;
    ReachesNext(s0, s0, SubscribeCheck);
    s := Next(s0, SubscribeCheck);
    ReachesNext(s0, s, CloseBegin);
    s := Next(s, CloseBegin);
    ReachesNext(s0, s, SubscribeStore(1, {}, true));
    s := Next(s, SubscribeStore(1, {}, true));
    ReachesNext(s0, s, CloseDeactivate(1));
    s := Next(s, CloseDeactivate(1));
    ReachesNext(s0, s, CloseCancel);
    s := Next(s, CloseCancel);
    ReachesNext(s0, s, CloseSwept);
    s := Next(s, CloseSwept);
  }

  /** Two notifications that overlap can reach a subscription in the order opposite to the log. */
  lemma OverlapReorders(queueSize: nat, e: Event, f: Event) returns (s: Sys)
    requires queueSize >= 2
    ensures Reaches(Initial(queueSize), s)
    ensures s.log == [e, f] && s.visits == map[] && 1 in s.subs && s.subs[1].active && s.subs[1].since == 0
    ensures s.subs[1].queue == [f, e] && s.overlap
  {
    var s0 := Initial(queueSize);
    s := OneSubscribed(queueSize);
    hide Reaches;
    ReachesNext(s0, s, NotifyBegin(0, e));
    s := Next(s, NotifyBegin(0, e));
    ReachesNext(s0, s, NotifyBegin(1, f));
    s := Next(s, NotifyBegin(1, f));
    var t := Visited(s0, s, 1);
    s := Visited(s0, t, 0);
    assert s.visits == map[];
  }

  /** A Notify call that has only subscription 1 to visit offers it the event and ends. */
  lemma Visited(s0: Sys, s: Sys, n: nat) returns (t: Sys)
    requires Reaches(s0, s) && !s.panicked && n in s.visits && s.visits[n] == Visit(s.visits[n].event, {1}, None)
    requires 1 in s.subs && s.subs[1].active && !s.subs[1].exited && |s.subs[1].queue| < s.queueSize
    ensures Reaches(s0, t) && t.visits == s.visits - {n} && !t.panicked
    ensures t == s.(visits := t.visits, subs := s.subs[1 := Accept(s.subs[1], s.visits[n].event, s.queueSize)])
  {
    hide Reaches;
    ReachesNext(s0, s, OfferCheck(n, 1));
    t := Next(s, OfferCheck(n, 1));
    ReachesNext(s0, t, OfferSend(n));
    t := Next(t, OfferSend(n));
    ReachesNext(s0, t, NotifyEnd(n));
    t := Next(t, NotifyEnd(n));
  }
}
