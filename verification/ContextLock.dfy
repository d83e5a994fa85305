/** `Mutex.LockContext` of internal/syncutil/syncutil.go as a step system: any number of callers of
    LockContext, Lock and TryLock, their helper goroutines, and every choice of select branch. */
module ContextLock {

  /** The goroutine that locks on behalf of a waiting LockContext call, then closes `done`. */
  datatype Helper = HelperBlocked | HelperLocked | HelperSignalled

  datatype Caller =
    | Trying                                // in LockContext, before TryLock
    | Waiting(helper: Helper)               // in the select of LockContext
    | Failed(helper: Helper, cleaned: bool) // LockContext returned the context's error
    | Blocking                              // in Lock
    | Refused                               // TryLock returned false
    | Owner                                 // returned with the lock
    | Released                              // unlocked again

  datatype Sys = Sys(locked: bool, callers: map<nat, Caller>)

  datatype Step =
    | CallLockContext(id: nat)
    | CallLock(id: nat)
    | CallTryLock(id: nat, refused: bool) // TryLock may refuse even a free mutex
    | TryFirst(id: nat, refused: bool)    // LockContext: m.TryLock(), else start the helper
    | Acquire(id: nat)      // Lock: m.mu.Lock() succeeds
    | HelperLock(id: nat)   // helper: m.mu.Lock() succeeds
    | Signal(id: nat)       // helper: close(done)
    | ObserveDone(id: nat)  // select: <-done
    | CtxDone(id: nat)      // select: <-ctx.Done(), start the cleanup goroutine
    | Cleanup(id: nat)      // cleanup: <-done, m.mu.Unlock()
    | Unlock(id: nat)       // an owner unlocks

  predicate IsCall(step: Step) {
    step.CallLockContext? || step.CallLock? || step.CallTryLock?
  }

  /** A caller in state `c` can take the step. */
  predicate Ready(s: Sys, c: Caller, step: Step) {
    match step
    case TryFirst(_, _) => c.Trying?
    case Acquire(_) => c.Blocking? && !s.locked
    case HelperLock(_) => (c.Waiting? || c.Failed?) && c.helper.HelperBlocked? && !s.locked
    case Signal(_) => (c.Waiting? || c.Failed?) && c.helper.HelperLocked?
    case ObserveDone(_) => c.Waiting? && c.helper.HelperSignalled?
    case CtxDone(_) => c.Waiting?
    case Cleanup(_) => c.Failed? && c.helper.HelperSignalled? && !c.cleaned
    case Unlock(_) => c.Owner?
    case _ => false
  }

  predicate Enabled(s: Sys, step: Step) {
    if IsCall(step) then step.id !in s.callers else step.id in s.callers && Ready(s, s.callers[step.id], step)
  }

  /** What the step makes of its caller and of the lock. */
  function Effect(s: Sys, step: Step): (Caller, bool)
    requires Enabled(s, step)
  {
    match step
    case CallLockContext(_) => (Trying, s.locked)
    case CallLock(_) => (Blocking, s.locked)
    case CallTryLock(_, refused) => if s.locked || refused then (Refused, s.locked) else (Owner, true)
    case TryFirst(_, refused) => if s.locked || refused then (Waiting(HelperBlocked), s.locked) else (Owner, true)
    case Acquire(_) => (Owner, true)
    case HelperLock(id) => (s.callers[id].(helper := HelperLocked), true)
    case Signal(id) => (s.callers[id].(helper := HelperSignalled), s.locked)
    case ObserveDone(_) => (Owner, s.locked)
    case CtxDone(id) => (Failed(s.callers[id].helper, false), s.locked)
    case Cleanup(id) => (s.callers[id].(cleaned := true), false)
    case Unlock(_) => (Released, false)
  }

  function Next(s: Sys, step: Step): Sys
    requires Enabled(s, step)
  {
    var (c, locked) := Effect(s, step);
    Sys(locked, s.callers[step.id := c])
  }

  predicate Possible(s: Sys, steps: seq<Step>)
    decreases |steps|
  {
    steps != [] ==> Enabled(s, steps[0]) && Possible(Next(s, steps[0]), steps[1..])
  }

  function Run(s: Sys, steps: seq<Step>): Sys
    requires Possible(s, steps)
    decreases |steps|
  {
    if steps == [] then s else Run(Next(s, steps[0]), steps[1..])
  }

  const INITIAL := Sys(false, map[])

  // ----- who holds the mutex -----

  /** A returned owner, a helper that has locked and has not been observed, or an abandoned helper
      that awaits its cleanup. */
  predicate Holds(c: Caller) {
    match c
    case Owner => true
    case Waiting(h) => !h.HelperBlocked?
    case Failed(h, cleaned) => !h.HelperBlocked? && !cleaned
    case _ => false
  }

  function Holders(s: Sys): set<nat> {
    set id | id in s.callers && Holds(s.callers[id])
  }

  predicate CleanedSignalled(c: Caller) {
    c.Failed? && c.cleaned ==> c.helper.HelperSignalled?
  }

  /** The mutex is held exactly when there is one holder, and there is never more than one. */
  ghost predicate Inv(s: Sys) {
    && (forall i, j :: i in s.callers && j in s.callers && Holds(s.callers[i]) && Holds(s.callers[j]) ==> i == j)
    && (s.locked <==> exists i :: i in s.callers && Holds(s.callers[i]))
    && (forall i :: i in s.callers ==> CleanedSignalled(s.callers[i]))
  }

  lemma NextKeepsInv(s: Sys, step: Step)
    requires Inv(s) && Enabled(s, step)
    ensures Inv(Next(s, step))
  {
    var t := Next(s, step);
    var id := step.id;
    assert forall i :: i in s.callers && i != id ==> t.callers[i] == s.callers[i];
    if Holds(t.callers[id]) {
      assert t.locked;
      if id !in s.callers || !Holds(s.callers[id]) { assert !s.locked; }
    } else if id in s.callers && Holds(s.callers[id]) {
      assert !t.locked;
    } else {
      assert t.locked == s.locked;
    }
  }

  lemma {:induction false} RunKeepsInv(s: Sys, steps: seq<Step>)
    requires Inv(s) && Possible(s, steps)
    ensures Inv(Run(s, steps))
    decreases |steps|
  {
    if steps != [] {
      NextKeepsInv(s, steps[0]);
      RunKeepsInv(Next(s, steps[0]), steps[1..]);
    }
  }

  /** Mutual exclusion over every run from the start: one holder when locked, none when free. */
  lemma HolderCount(steps: seq<Step>)
    requires Possible(INITIAL, steps)
    ensures var s := Run(INITIAL, steps); |Holders(s)| == if s.locked then 1 else 0
  {
    RunKeepsInv(INITIAL, steps);
    var s := Run(INITIAL, steps);
    if s.locked {
      var i :| i in s.callers && Holds(s.callers[i]);
      forall j ensures j in Holders(s) <==> j in {i} { }
      assert Holders(s) == {i};
    } else {
      forall j ensures j !in Holders(s) { }
      assert Holders(s) == {};
    }
  }

  /** A caller that got an error stays without the lock for ever. */
  lemma {:induction false} FailedNeverOwns(s: Sys, steps: seq<Step>, id: nat)
    requires Possible(s, steps) && id in s.callers && s.callers[id].Failed?
    ensures id in Run(s, steps).callers && Run(s, steps).callers[id].Failed?
    decreases |steps|
  {
    if steps != [] { FailedNeverOwns(Next(s, steps[0]), steps[1..], id); }
  }

  // ----- what a caller gets -----

  /** From every reachable state: a call that finds the mutex free owns it at once; one that finds it
      held waits, and if its helper gets the mutex and it observes `done`, it owns the mutex alone. */
  lemma LockObtained(steps: seq<Step>, step: Step)
    requires Possible(INITIAL, steps) && Enabled(Run(INITIAL, steps), step)
    ensures var s := Run(INITIAL, steps); var t := Next(s, step);
            && (step.ObserveDone? || step.Acquire? ==>
                  t.locked && t.callers == s.callers[step.id := Owner] && Holders(t) == {step.id})
            && (step.TryFirst? ==>
                  t.locked == (s.locked || !step.refused) &&
                  t.callers == s.callers[step.id := if s.locked || step.refused then Waiting(HelperBlocked) else Owner])
            && (step.CallTryLock? ==>
                  t.locked == (s.locked || !step.refused) &&
                  t.callers == s.callers[step.id := if s.locked || step.refused then Refused else Owner])
            && (step.CallLockContext? ==> t == Sys(s.locked, s.callers[step.id := Trying]))
            && (step.CallLock? ==> t == Sys(s.locked, s.callers[step.id := Blocking]))
            && (step.Unlock? || step.Cleanup? ==> s.locked && !t.locked && Holders(t) == {})
  {
    var s, t := Run(INITIAL, steps), Next(Run(INITIAL, steps), step);
    RunKeepsInv(INITIAL, steps);
    NextKeepsInv(s, step);
    hide Run, Possible;
    if step.ObserveDone? || step.Acquire? {
      assert step.id in t.callers && Holds(t.callers[step.id]);
    }
    if step.Unlock? || step.Cleanup? {
      assert Holds(s.callers[step.id]);
    }
  }

  /** Once its owner unlocks, a waiting call whose helper is next gets the mutex and returns with it. */
  lemma HandOver(steps: seq<Step>, owner: nat, id: nat)
    requires Possible(INITIAL, steps)
    requires var s := Run(INITIAL, steps);
             && owner in s.callers && s.callers[owner] == Owner
             && id in s.callers && s.callers[id] == Waiting(HelperBlocked)
    ensures var s := Run(INITIAL, steps);
            && Possible(s, [Unlock(owner), HelperLock(id)] + [Signal(id), ObserveDone(id)])
            && Run(s, [Unlock(owner), HelperLock(id)] + [Signal(id), ObserveDone(id)]) ==
               Sys(true, s.callers[owner := Released][id := Owner])
  {
    var s := Run(INITIAL, steps);
    TwoSteps(s, Unlock(owner), HelperLock(id));
    var t := Next(Next(s, Unlock(owner)), HelperLock(id));
    TwoSteps(t, Signal(id), ObserveDone(id));
    RunAppend(s, [Unlock(owner), HelperLock(id)], [Signal(id), ObserveDone(id)]);
    assert s.callers[owner := Released][id := Waiting(HelperLocked)][id := Waiting(HelperSignalled)][id := Owner] ==
           s.callers[owner := Released][id := Owner];
  }

  /** A call that gives up returns the context's error; whenever its helper gets the mutex after all,
      the cleanup frees it again. */
  lemma Abandoned(s: Sys, id: nat)
    requires !s.locked && id in s.callers && s.callers[id] == Waiting(HelperBlocked)
    ensures Possible(s, [CtxDone(id), HelperLock(id)] + [Signal(id), Cleanup(id)])
    ensures Run(s, [CtxDone(id), HelperLock(id)] + [Signal(id), Cleanup(id)]) ==
            Sys(false, s.callers[id := Failed(HelperSignalled, true)])
    ensures Run(s, [CtxDone(id), HelperLock(id)]) == Sys(true, s.callers[id := Failed(HelperLocked, false)])
  {
    TwoSteps(s, CtxDone(id), HelperLock(id));
    var t := Next(Next(s, CtxDone(id)), HelperLock(id));
    TwoSteps(t, Signal(id), Cleanup(id));
    RunAppend(s, [CtxDone(id), HelperLock(id)], [Signal(id), Cleanup(id)]);
    assert s.callers[id := Failed(HelperBlocked, false)][id := Failed(HelperLocked, false)] ==
           s.callers[id := Failed(HelperLocked, false)];
  }

  /** A waiting call may always give up. If its helper has got the mutex by then, both branches of the
      select are open, and giving up frees the mutex again. */
  lemma GivesUp(s: Sys, id: nat)
    requires id in s.callers && s.callers[id].Waiting?
    ensures Enabled(s, CtxDone(id)) && (Enabled(s, ObserveDone(id)) <==> s.callers[id].helper.HelperSignalled?)
    ensures s.callers[id].helper.HelperSignalled? ==>
              && Possible(s, [CtxDone(id), Cleanup(id)])
              && Run(s, [CtxDone(id), Cleanup(id)]) == Sys(false, s.callers[id := Failed(HelperSignalled, true)])
  {
    if s.callers[id].helper.HelperSignalled? {
      TwoSteps(s, CtxDone(id), Cleanup(id));
      assert s.callers[id := Failed(HelperSignalled, false)][id := Failed(HelperSignalled, true)] ==
             s.callers[id := Failed(HelperSignalled, true)];
    }
  }

  lemma TwoSteps(s: Sys, a: Step, b: Step)
    requires Enabled(s, a) && Enabled(Next(s, a), b)
    ensures Possible(s, [a, b]) && Run(s, [a, b]) == Next(Next(s, a), b)
  {
    hide Next, Enabled;
    assert [a, b][1..] == [b] && [b][1..] == [];
    assert Possible(Next(Next(s, a), b), []);
    assert Run(Next(s, a), [b]) == Next(Next(s, a), b);
  }

  lemma {:induction false} RunAppend(s: Sys, a: seq<Step>, b: seq<Step>)
    requires Possible(s, a) && Possible(Run(s, a), b)
    ensures Possible(s, a + b) && Run(s, a + b) == Run(Run(s, a), b)
    decreases |a|
  {
    hide Next, Enabled;
    if a == [] {
      assert a + b == b;
    } else {
      assert (a + b)[1..] == a[1..] + b;
      RunAppend(Next(s, a[0]), a[1..], b);
    }
  }

  // ----- when no new calls arrive -----

  function Weight(c: Caller): nat {
    match c
    case Trying => 5
    case Waiting(h) => if h.HelperBlocked? then 4 else if h.HelperLocked? then 3 else 2
    case Failed(h, cleaned) =>
      if cleaned then 0 else if h.HelperBlocked? then 3 else if h.HelperLocked? then 2 else 1
    case Blocking => 2
    case Owner => 1
    case Refused => 0
    case Released => 0
  }

  ghost function Work(callers: map<nat, Caller>): nat
    decreases |callers|
  {
    if callers.Keys == {} then 0 else
    var id :| id in callers.Keys;
    Weight(callers[id]) + Work(callers - {id})
  }

  lemma {:induction false} WorkWith(callers: map<nat, Caller>, id: nat)
    requires id in callers
    ensures Work(callers) == Weight(callers[id]) + Work(callers - {id})
    decreases |callers|
  {
    var x :| x in callers && Work(callers) == Weight(callers[x]) + Work(callers - {x});
    if x != id {
      WorkWith(callers - {x}, id);
      WorkWith(callers - {id}, x);
      assert callers - {x} - {id} == callers - {id} - {x};
    }
  }

  /** Every step but a new call uses up work. */
  lemma StepUsesWork(s: Sys, step: Step)
    requires Inv(s) && Enabled(s, step) && !IsCall(step)
    ensures Work(Next(s, step).callers) < Work(s.callers)
  {
    var t := Next(s, step);
    WorkWith(s.callers, step.id);
    WorkWith(t.callers, step.id);
    assert t.callers - {step.id} == s.callers - {step.id};
    assert CleanedSignalled(s.callers[step.id]);
  }

  predicate Finished(c: Caller) { Weight(c) == 0 }

  /** As long as some caller is not finished, some step that is not a new call can be taken. */
  lemma NotStuck(s: Sys) returns (step: Step)
    requires Inv(s) && (s.locked || exists i :: i in s.callers && !Finished(s.callers[i]))
    ensures !IsCall(step) && Enabled(s, step)
  {
    var i :| i in s.callers && if s.locked then Holds(s.callers[i]) else !Finished(s.callers[i]);
    match s.callers[i]
    case Trying => step := TryFirst(i, false);
    case Blocking => step := Acquire(i);
    case Owner => step := Unlock(i);
    case Waiting(h) =>
      step := if h.HelperBlocked? then HelperLock(i) else if h.HelperLocked? then Signal(i) else ObserveDone(i);
    case Failed(h, _) =>
      step := if h.HelperBlocked? then HelperLock(i) else if h.HelperLocked? then Signal(i) else Cleanup(i);
  }

  /** Without new calls every run is short, and where it cannot go on the mutex is free and every
      caller is finished: owners have unlocked and abandoned helpers are cleaned up. */
  lemma {:induction false} Drains(s: Sys, steps: seq<Step>)
    requires Inv(s) && Possible(s, steps) && forall i :: 0 <= i < |steps| ==> !IsCall(steps[i])
    ensures |steps| <= Work(s.callers)
    ensures var t := Run(s, steps);
            (forall step :: !IsCall(step) ==> !Enabled(t, step)) ==>
              !t.locked && forall i :: i in t.callers ==> Finished(t.callers[i])
    decreases |steps|
  {
    if steps == [] {
      if s.locked || exists i :: i in s.callers && !Finished(s.callers[i]) {
        var step := NotStuck(s);
      }
    } else {
      NextKeepsInv(s, steps[0]);
      StepUsesWork(s, steps[0]);
      Drains(Next(s, steps[0]), steps[1..]);
    }
  }
}
