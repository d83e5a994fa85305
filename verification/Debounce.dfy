/** The debouncer of watch/watch.go as a timed step system: the select loop of `run`, the consumer
    of its output channel, and the passing of time. */
module Debounce {
  import opened Types

  const OUTPUT_CAPACITY := 10

  /** A change as it was received, with the time of its receipt. */
  datatype Received<T> = Received(change: T, time: int)

  /** One send on the output channel: which received change, when, how many changes had been received
      by then, and whether the timer was the reason. */
  datatype Emission = Emission(index: nat, at: int, seen: nat, byTimer: bool)

  /** Where the goroutine is: in the outer select, blocked sending after the timer, or gone. */
  datatype Place = Selecting | Sending | Exited

  /** `pending` is the index of the pending change; `deadline` is set while the timer runs. `superseded`
      and `lost` record which changes were dropped for a later one and which was given up at the end. */
  datatype State<T> = State(
    place: Place, now: int, pending: Option<nat>, deadline: Option<int>,
    received: seq<Received<T>>, emitted: seq<Emission>, consumed: nat, superseded: set<nat>, lost: Option<nat>)
  {
    /** Changes in the output channel's buffer. */
    function Buffered(): int { |emitted| - consumed }

    function Emit(byTimer: bool): State<T>
      requires pending.Some?
    {
      this.(emitted := emitted + [Emission(pending.value, now, |received|, byTimer)], pending := None)
    }

    /** The goroutine returns; a change still pending is lost. */
    function Exit(): State<T> {
      this.(place := Exited, deadline := None, pending := None,
            lost := if pending.Some? then pending else lost)
    }
  }

  datatype Step<T> =
    | Pass(duration: nat)       // time passes
    | Receive(change: T)        // case change := <-d.source
    | Fire                      // case <-timer.C
    | Deliver                   // the blocked send goes through
    | SendCancelled             // the blocked send sees ctx.Done()
    | SourceClosed              // the source channel is closed
    | Cancelled                 // case <-ctx.Done()
    | Stopped                   // case <-d.stop
    | Consume                   // the consumer takes one change

  predicate Enabled<T>(s: State<T>, step: Step<T>) {
    match step
    case Pass(_) => true
    case Receive(_) => s.place.Selecting?
    case Fire => s.place.Selecting? && s.deadline.Some? && s.deadline.value <= s.now
    case Deliver => s.place.Sending? && s.Buffered() < OUTPUT_CAPACITY && s.pending.Some?
    case SendCancelled => s.place.Sending?
    case SourceClosed => s.place.Selecting?
    case Cancelled => s.place.Selecting?
    case Stopped => s.place.Selecting?
    case Consume => s.Buffered() > 0
  }

  function Next<T>(s: State<T>, interval: int, step: Step<T>): State<T>
    requires Enabled(s, step)
  {
    match step
    case Pass(d) => s.(now := s.now + d)
    case Receive(c) =>
      s.(received := s.received + [Received(c, s.now)], pending := Some(|s.received|),
         deadline := Some(s.now + interval),
         superseded := if s.pending.Some? then s.superseded + {s.pending.value} else s.superseded)
    case Fire => if s.pending.Some? then s.(deadline := None, place := Sending) else s.(deadline := None)
    case Deliver => s.Emit(true).(place := Selecting)
    case SendCancelled => s.Exit()
    case SourceClosed =>
      if s.pending.Some? && s.Buffered() < OUTPUT_CAPACITY then s.Emit(false).Exit() else s.Exit()
    case Cancelled => s.Exit()
    case Stopped => s.Exit()
    case Consume => s.(consumed := s.consumed + 1)
  }

  function Initial<T>(now: int): State<T> {
    State(Selecting, now, None, None, [], [], 0, {}, None)
  }

  predicate Possible<T>(s: State<T>, interval: int, steps: seq<Step<T>>)
    decreases |steps|
  {
    steps != [] ==> Enabled(s, steps[0]) && Possible(Next(s, interval, steps[0]), interval, steps[1..])
  }

  function Run<T>(s: State<T>, interval: int, steps: seq<Step<T>>): State<T>
    requires Possible(s, interval, steps)
    decreases |steps|
  {
    if steps == [] then s else Run(Next(s, interval, steps[0]), interval, steps[1..])
  }

  // ----- what every step keeps -----

  /** The pending change is the latest received one; the timer runs exactly while one is pending in
      the outer select, and ends a full interval after that change. */
  predicate PendingIsLatest<T>(s: State<T>, interval: int) {
    && (s.pending.Some? ==> s.pending.value == |s.received| - 1)
    && (s.place.Selecting? ==> (s.deadline.Some? <==> s.pending.Some?))
    && (s.deadline.Some? ==> s.place.Selecting? && s.pending.Some?)
    && (s.deadline.Some? ==> s.deadline.value == s.received[|s.received| - 1].time + interval)
    && (s.place.Sending? ==> s.pending.Some? && s.received[|s.received| - 1].time + interval <= s.now)
    && (s.place.Exited? ==> s.pending.None?)
  }

  predicate TimesPast<T>(s: State<T>) {
    && (forall i, j :: 0 <= i < j < |s.received| ==> s.received[i].time <= s.received[j].time)
    && (forall i :: 0 <= i < |s.received| ==> s.received[i].time <= s.now)
    && (forall e :: 0 <= e < |s.emitted| ==> s.emitted[e].at <= s.now)
  }

  /** Each emission is of the change that was the latest at its time; a timer emission comes when
      nothing has been received for a whole interval; later receipts are not earlier than it. */
  predicate EmissionFits<T>(s: State<T>, interval: int, e: Emission) {
    && e.index + 1 == e.seen <= |s.received|
    && (e.byTimer ==> forall j :: 0 <= j < e.seen ==> s.received[j].time + interval <= e.at)
    && (forall j :: e.seen <= j < |s.received| ==> e.at <= s.received[j].time)
  }

  predicate EmissionsFit<T>(s: State<T>, interval: int) {
    && (forall i :: 0 <= i < |s.emitted| ==> EmissionFits(s, interval, s.emitted[i]))
    && (forall i, j :: 0 <= i < j < |s.emitted| ==> s.emitted[i].index < s.emitted[j].index)
    && (s.pending.Some? ==> forall i :: 0 <= i < |s.emitted| ==> s.emitted[i].index < s.pending.value)
  }

  predicate Emitted<T>(s: State<T>, i: nat) {
    exists e :: e in s.emitted && e.index == i
  }

  /** Every received change has exactly one fate: emitted, pending, superseded by a later one, or the
      last one lost at exit. */
  predicate Accounted<T>(s: State<T>) {
    && (forall i :: i in s.superseded ==> i + 1 < |s.received|)
    && (s.lost.Some? ==> s.place.Exited? && s.lost.value + 1 == |s.received|)
    && (forall e :: e in s.emitted ==> e.index < |s.received| && e.index !in s.superseded && s.lost != Some(e.index))
    && (forall i: nat :: i < |s.received| ==>
          Emitted(s, i) || s.pending == Some(i) || i in s.superseded || s.lost == Some(i))
    && 0 <= s.Buffered() <= OUTPUT_CAPACITY
  }

  predicate Inv<T>(s: State<T>, interval: int) {
    PendingIsLatest(s, interval) && TimesPast(s) && EmissionsFit(s, interval) && Accounted(s)
  }

  lemma EmitFits<T>(s: State<T>, interval: int, byTimer: bool)
    requires Inv(s, interval) && s.pending.Some?
    requires byTimer ==> s.place.Sending?
    ensures EmissionsFit(s.Emit(byTimer), interval)
  {
    var t := s.Emit(byTimer);
    forall i | 0 <= i < |t.emitted| ensures EmissionFits(t, interval, t.emitted[i]) {
      if i < |s.emitted| { assert EmissionFits(s, interval, s.emitted[i]); }
    }
  }

  lemma ReceiveFits<T>(s: State<T>, interval: int, c: T)
    requires Inv(s, interval) && s.place.Selecting?
    ensures EmissionsFit(Next(s, interval, Receive(c)), interval)
  {
    var t := Next(s, interval, Receive(c));
    forall i | 0 <= i < |t.emitted|
      ensures EmissionFits(t, interval, t.emitted[i]) && t.emitted[i].index < |s.received|
    {
      assert EmissionFits(s, interval, s.emitted[i]);
    }
  }

  /** Steps that receive and emit nothing leave the emissions fitting. */
  lemma SameEmissions<T>(s: State<T>, t: State<T>, interval: int)
    requires EmissionsFit(s, interval)
    requires t.emitted == s.emitted && t.received == s.received && (t.pending == s.pending || t.pending.None?)
    ensures EmissionsFit(t, interval)
  {
    forall i | 0 <= i < |t.emitted| ensures EmissionFits(t, interval, t.emitted[i]) {
      assert EmissionFits(s, interval, s.emitted[i]);
    }
  }

  lemma NextKeepsEmissions<T>(s: State<T>, interval: int, step: Step<T>)
    requires Inv(s, interval) && Enabled(s, step)
    ensures EmissionsFit(Next(s, interval, step), interval)
  {
    hide EmissionsFit;
    var t := Next(s, interval, step);
    match step
    case Receive(c) => ReceiveFits(s, interval, c);
    case Deliver =>
      EmitFits(s, interval, true);
      SameEmissions(s.Emit(true), t, interval);
    case SourceClosed =>
      if s.pending.Some? {
        EmitFits(s, interval, false);
        if s.Buffered() < OUTPUT_CAPACITY { SameEmissions(s.Emit(false), t, interval); }
        else { SameEmissions(s, t, interval); }
      } else {
        SameEmissions(s, t, interval);
      }
    case _ => SameEmissions(s, t, interval);
  }

  lemma NextKeepsTimes<T>(s: State<T>, interval: int, step: Step<T>)
    requires Inv(s, interval) && Enabled(s, step)
    ensures TimesPast(Next(s, interval, step))
  {
    hide EmissionsFit, Accounted;
  }

  /** Sending the pending change, exiting or receiving moves one change to its fate. */
  lemma EmitAccounts<T>(s: State<T>, byTimer: bool)
    requires Accounted(s) && s.pending == Some(|s.received| - 1) && s.received != [] && !s.place.Exited?
    requires s.Buffered() < OUTPUT_CAPACITY
    ensures Accounted(s.Emit(byTimer))
  {
    var t := s.Emit(byTimer);
    assert forall e :: e in t.emitted <==> e in s.emitted || e == t.emitted[|s.emitted|];
    assert t.emitted[|s.emitted|].index == s.pending.value;
    forall i: nat | i < |t.received| ensures Emitted(t, i) || i in t.superseded || t.lost == Some(i) {
      if Emitted(s, i) { var e :| e in s.emitted && e.index == i; assert e in t.emitted; }
    }
  }

  lemma ExitAccounts<T>(s: State<T>)
    requires Accounted(s) && (s.pending.Some? ==> s.pending == Some(|s.received| - 1) && s.received != [])
    requires s.pending.Some? ==> forall e :: e in s.emitted ==> e.index != s.pending.value
    requires s.pending.Some? ==> s.lost.None?
    ensures Accounted(s.Exit())
  {
    assert forall i: nat :: Emitted(s, i) ==> Emitted(s.Exit(), i);
  }

  lemma ReceiveAccounts<T>(s: State<T>, interval: int, c: T)
    requires Accounted(s) && s.place.Selecting?
    requires s.pending.Some? ==> s.pending == Some(|s.received| - 1) && s.received != []
    requires s.pending.Some? ==> forall e :: e in s.emitted ==> e.index != s.pending.value
    ensures Accounted(Next(s, interval, Receive(c)))
  {
    assert forall i: nat :: Emitted(s, i) ==> Emitted(Next(s, interval, Receive(c)), i);
  }

  lemma SameFates<T>(s: State<T>, t: State<T>)
    requires Accounted(s) && 0 <= t.Buffered() <= OUTPUT_CAPACITY
    requires t.emitted == s.emitted && t.received == s.received && t.pending == s.pending
    requires t.superseded == s.superseded && t.lost == s.lost && (s.place.Exited? <==> t.place.Exited?)
    ensures Accounted(t)
  {
    assert forall i: nat :: Emitted(s, i) ==> Emitted(t, i);
  }

  lemma NextKeepsFates<T>(s: State<T>, interval: int, step: Step<T>)
    requires Inv(s, interval) && Enabled(s, step)
    ensures Accounted(Next(s, interval, step))
  {
    var t := Next(s, interval, step);
    assert s.pending.Some? ==> forall e :: e in s.emitted ==> e.index < s.pending.value;
    assert !s.place.Exited? ==> s.lost.None?;
    assert 0 <= s.Buffered() <= OUTPUT_CAPACITY;
    hide EmissionsFit, TimesPast, Accounted;
    match step
    case Receive(c) => ReceiveAccounts(s, interval, c);
    case Deliver =>
      EmitAccounts(s, true);
      SameFates(s.Emit(true), t);
    case SourceClosed =>
      if s.pending.Some? && s.Buffered() < OUTPUT_CAPACITY {
        EmitAccounts(s, false);
        ExitAccounts(s.Emit(false));
      } else {
        ExitAccounts(s);
      }
    case SendCancelled => ExitAccounts(s);
    case Cancelled => ExitAccounts(s);
    case Stopped => ExitAccounts(s);
    case Pass(_) => SameFates(s, t);
    case Fire => SameFates(s, t);
    case Consume => SameFates(s, t);
  }

  lemma NextKeepsInv<T>(s: State<T>, interval: int, step: Step<T>)
    requires Inv(s, interval) && Enabled(s, step)
    ensures Inv(Next(s, interval, step), interval)
  {
    NextKeepsEmissions(s, interval, step);
    NextKeepsTimes(s, interval, step);
    NextKeepsFates(s, interval, step);
    hide EmissionsFit, TimesPast, Accounted;
  }

  /** Over every timed run from the start, whatever the interleaving. */
  lemma {:induction false} RunKeepsInv<T>(s: State<T>, interval: int, steps: seq<Step<T>>)
    requires Inv(s, interval) && Possible(s, interval, steps)
    ensures Inv(Run(s, interval, steps), interval)
    decreases |steps|
  {
    hide Inv, Next, Enabled;
    if steps != [] {
      NextKeepsInv(s, interval, steps[0]);
      RunKeepsInv(Next(s, interval, steps[0]), interval, steps[1..]);
    }
  }

  // ----- consequences -----

  /** The output as the consumer and the buffer see it. */
  function Output<T>(s: State<T>): seq<T>
    requires forall i :: 0 <= i < |s.emitted| ==> s.emitted[i].index < |s.received|
  {
    seq(|s.emitted|, i requires 0 <= i < |s.emitted| => s.received[s.emitted[i].index].change)
  }

  /** `out` is `input` at the increasing positions `at`. */
  ghost predicate SubsequenceAt<T>(out: seq<T>, input: seq<T>, at: seq<nat>) {
    && |at| == |out|
    && (forall i, j :: 0 <= i < j < |at| ==> at[i] < at[j])
    && (forall i :: 0 <= i < |at| ==> at[i] < |input| && out[i] == input[at[i]])
  }

  function Input<T>(s: State<T>): seq<T> {
    seq(|s.received|, i requires 0 <= i < |s.received| => s.received[i].change)
  }

  /** Output is an in-order subsequence of input, and timer emissions are quiet: between a whole
      interval before one and the emission itself nothing was received. */
  lemma DebouncedOutput<T>(now: int, interval: int, steps: seq<Step<T>>)
    requires Possible(Initial<T>(now), interval, steps)
    ensures var s := Run(Initial<T>(now), interval, steps);
            && Inv(s, interval)
            && (forall i :: 0 <= i < |s.emitted| ==> s.emitted[i].index < |s.received|)
            && SubsequenceAt(Output(s), Input(s),
                             seq(|s.emitted|, i requires 0 <= i < |s.emitted| => s.emitted[i].index))
            && forall i, j :: 0 <= i < |s.emitted| && s.emitted[i].byTimer && 0 <= j < |s.received| ==>
                 s.received[j].time <= s.emitted[i].at - interval || s.emitted[i].at <= s.received[j].time
  {
    FromStart(now, interval, steps);
    var s := Run(Initial<T>(now), interval, steps);
    hide Run, Possible;
    assert forall i :: 0 <= i < |s.emitted| ==> EmissionFits(s, interval, s.emitted[i]);
  }

  /** In every reachable state each received change has one fate: emitted once, pending, superseded or
      lost. The latest one is never superseded, and an earlier one is never pending or lost. */
  lemma OneFate<T>(now: int, interval: int, steps: seq<Step<T>>)
    requires Possible(Initial<T>(now), interval, steps)
    ensures var s := Run(Initial<T>(now), interval, steps);
            && (forall i :: i in s.superseded ==> i + 1 < |s.received|)
            && (s.pending.Some? ==> s.pending.value + 1 == |s.received| && s.lost.None?)
            && (s.lost.Some? ==> s.lost.value + 1 == |s.received|)
            && (forall a, b :: 0 <= a < b < |s.emitted| ==> s.emitted[a].index < s.emitted[b].index)
            && (forall e :: e in s.emitted ==>
                  && e.index < |s.received| && e.index !in s.superseded
                  && s.pending != Some(e.index) && s.lost != Some(e.index))
            && forall i: nat :: i < |s.received| ==>
                 || i in s.superseded || s.pending == Some(i) || s.lost == Some(i)
                 || exists e :: e in s.emitted && e.index == i
  {
    FromStart(now, interval, steps);
    var s := Run(Initial<T>(now), interval, steps);
    hide Run, Possible, TimesPast;
    forall e | e in s.emitted && s.pending.Some? ensures e.index < s.pending.value { }
    forall i: nat | i < |s.received| && Emitted(s, i) ensures exists e :: e in s.emitted && e.index == i { }
  }

  /** The timer can fire exactly when a change is pending and a whole interval has passed since it was
      received. If then the output has room, the change is sent, and nothing else happens. */
  lemma TimerEmits<T>(now: int, interval: int, steps: seq<Step<T>>)
    requires Possible(Initial<T>(now), interval, steps)
    requires Run(Initial<T>(now), interval, steps).place.Selecting?
    ensures var s := Run(Initial<T>(now), interval, steps);
            Enabled(s, Fire) <==>
              s.pending.Some? && s.received != [] && s.received[|s.received| - 1].time + interval <= s.now
    ensures var s := Run(Initial<T>(now), interval, steps);
            Enabled(s, Fire) && |s.emitted| - s.consumed < 10 ==>
              && Possible(s, interval, [Fire, Deliver])
              && var t := Run(s, interval, [Fire, Deliver]);
                 && t.emitted == s.emitted + [Emission(|s.received| - 1, s.now, |s.received|, true)]
                 && t.received == s.received && t.place.Selecting? && t.pending.None? && t.deadline.None?
                 && t.superseded == s.superseded && t.lost == s.lost && t.consumed == s.consumed
  {
    var s := Run(Initial<T>(now), interval, steps);
    FromStart(now, interval, steps);
    hide EmissionsFit, TimesPast, Accounted;
    if Enabled(s, Fire) && |s.emitted| - s.consumed < 10 {
      TwoSteps(s, interval, Fire, Deliver);
    }
  }

  /** A change after which nothing comes for the whole interval is sent at the end of it. */
  lemma QuietEmits<T>(now: int, interval: nat, steps: seq<Step<T>>, c: T)
    requires Possible(Initial<T>(now), interval, steps)
    requires var s := Run(Initial<T>(now), interval, steps); s.place.Selecting? && |s.emitted| - s.consumed < 10
    ensures var s := Run(Initial<T>(now), interval, steps);
            && Possible(s, interval, [Receive(c), Pass(interval)] + [Fire, Deliver])
            && var t := Run(s, interval, [Receive(c), Pass(interval)] + [Fire, Deliver]);
               && t.emitted == s.emitted + [Emission(|s.received|, s.now + interval, |s.received| + 1, true)]
               && t.received == s.received + [Received(c, s.now)]
  {
    var s := Run(Initial<T>(now), interval, steps);
    FromStart(now, interval, steps);
    hide EmissionsFit, TimesPast, Accounted;
    TwoSteps(s, interval, Receive(c), Pass(interval));
    var u := Run(s, interval, [Receive(c), Pass(interval)]);
    TwoSteps(u, interval, Fire, Deliver);
    RunAppend(s, interval, [Receive(c), Pass(interval)], [Fire, Deliver]);
  }

  /** A send that is blocked on a full output goes through once the consumer has taken one change. */
  lemma BlockedSend<T>(now: int, interval: int, steps: seq<Step<T>>)
    requires Possible(Initial<T>(now), interval, steps)
    requires var s := Run(Initial<T>(now), interval, steps); s.place.Sending? && |s.emitted| - s.consumed == 10
    ensures var s := Run(Initial<T>(now), interval, steps);
            && s.received != [] && !Enabled(s, Deliver) && Possible(s, interval, [Consume, Deliver])
            && var t := Run(s, interval, [Consume, Deliver]);
               && t.emitted == s.emitted + [Emission(|s.received| - 1, s.now, |s.received|, true)]
               && t.consumed == s.consumed + 1 && t.place.Selecting? && t.pending.None? && t.received == s.received
  {
    var s := Run(Initial<T>(now), interval, steps);
    FromStart(now, interval, steps);
    hide EmissionsFit, TimesPast, Accounted;
    TwoSteps(s, interval, Consume, Deliver);
  }

  /** Stopping or cancelling sends nothing; a change that is pending then is lost. */
  lemma StopLoses<T>(now: int, interval: int, steps: seq<Step<T>>, step: Step<T>)
    requires Possible(Initial<T>(now), interval, steps)
    requires step.Cancelled? || step.Stopped? || step.SendCancelled?
    ensures var s := Run(Initial<T>(now), interval, steps);
            && (Enabled(s, step) <==> if step.SendCancelled? then s.place.Sending? else s.place.Selecting?)
            && (Enabled(s, step) ==>
                  var t := Next(s, interval, step);
                  t.place.Exited? && t.emitted == s.emitted && t.received == s.received && t.lost == s.pending)
  {
    FromStart(now, interval, steps);
    var s := Run(Initial<T>(now), interval, steps);
    hide EmissionsFit, TimesPast, Run, Possible;
    assert Accounted(s) && PendingIsLatest(s, interval);
  }

  lemma FromStart<T>(now: int, interval: int, steps: seq<Step<T>>)
    requires Possible(Initial<T>(now), interval, steps)
    ensures Inv(Run(Initial<T>(now), interval, steps), interval)
  {
    hide Possible, Run;
    InitialKept<T>(now, interval);
    RunKeepsInv(Initial<T>(now), interval, steps);
  }

  lemma TwoSteps<T>(s: State<T>, interval: int, a: Step<T>, b: Step<T>)
    requires Enabled(s, a) && Enabled(Next(s, interval, a), b)
    ensures Possible(s, interval, [a, b]) && Run(s, interval, [a, b]) == Next(Next(s, interval, a), interval, b)
  {
    hide Next, Enabled;
    assert [a, b][1..] == [b] && [b][1..] == [];
    assert Possible(Next(Next(s, interval, a), interval, b), interval, []);
    assert Run(Next(s, interval, a), interval, [b]) == Next(Next(s, interval, a), interval, b);
  }

  lemma {:induction false} RunAppend<T>(s: State<T>, interval: int, a: seq<Step<T>>, b: seq<Step<T>>)
    requires Possible(s, interval, a) && Possible(Run(s, interval, a), interval, b)
    ensures Possible(s, interval, a + b) && Run(s, interval, a + b) == Run(Run(s, interval, a), interval, b)
    decreases |a|
  {
    hide Next, Enabled;
    if a == [] {
      assert a + b == b;
    } else {
      assert (a + b)[1..] == a[1..] + b;
      RunAppend(Next(s, interval, a[0]), interval, a[1..], b);
    }
  }

  /** After the goroutine has returned, nothing is received or emitted any more. */
  lemma {:induction false} ExitedStays<T>(s: State<T>, interval: int, steps: seq<Step<T>>)
    requires s.place.Exited? && Possible(s, interval, steps)
    ensures var t := Run(s, interval, steps);
            t.received == s.received && t.emitted == s.emitted && t.lost == s.lost
    decreases |steps|
  {
    if steps != [] { ExitedStays(Next(s, interval, steps[0]), interval, steps[1..]); }
  }

  /** After any run, if the source closes with a change pending, that change is the last one ever
      emitted if and only if the output channel has room then; otherwise it is the one lost. */
  lemma SourceCloseFlushes<T>(now: int, interval: int, steps: seq<Step<T>>, later: seq<Step<T>>)
    requires Possible(Initial<T>(now), interval, steps)
    requires var s := Run(Initial<T>(now), interval, steps);
             s.place.Selecting? && s.pending.Some? && Possible(Next(s, interval, SourceClosed), interval, later)
    ensures var s := Run(Initial<T>(now), interval, steps);
            var u := Run(Next(s, interval, SourceClosed), interval, later);
            && u.received == s.received
            && (s.Buffered() < OUTPUT_CAPACITY <==>
                  u.emitted != [] && u.emitted[|u.emitted| - 1].index == |u.received| - 1)
            && u.lost == if s.Buffered() < OUTPUT_CAPACITY then None else Some(|u.received| - 1)
  {
    hide Possible, Run;
    InitialKept<T>(now, interval);
    RunKeepsInv(Initial<T>(now), interval, steps);
    var s := Run(Initial<T>(now), interval, steps);
    ExitedStays(Next(s, interval, SourceClosed), interval, later);
  }

  lemma InitialKept<T>(now: int, interval: int)
    ensures Inv(Initial<T>(now), interval)
  {
  }
}
