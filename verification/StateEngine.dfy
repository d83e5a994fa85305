/** The state engine of core/state.go: versions, atomic swaps and change events. Hooks are given by
    their outcome; observers by the sequence of events they are notified of. */
module StateEngine {
  import opened Types
  import opened Flattening
  import opened Merge
  import opened Loader
  import Snapshots

  datatype Event =
    | Created(key: string, new_: Value)
    | Updated(key: string, old_: Value, new_: Value)
    | Deleted(key: string, old_: Value)

  // ----- events of one swap -----

  /** The event that the change from `before` to `after` calls for at a key, if any. */
  function EventFor(before: Data, after: Data, k: string): Option<Event> {
    if k in after then
      if k !in before then Some(Created(k, after[k]))
      else if SameValue(before[k], after[k]) then None
      else Some(Updated(k, before[k], after[k]))
    else if k in before then Some(Deleted(k, before[k]))
    else None
  }

  /** Each key has its event once, or not at all if it calls for none. */
  ghost predicate Describes(events: seq<Event>, before: Data, after: Data) {
    && (forall i :: 0 <= i < |events| ==> EventFor(before, after, events[i].key) == Some(events[i]))
    && (forall i, j :: 0 <= i < j < |events| ==> events[i].key != events[j].key)
    && (forall k :: EventFor(before, after, k).Some? ==> EventFor(before, after, k).value in events)
  }

  /** The events of the keys visited so far, and no others. */
  ghost predicate Sound(events: seq<Event>, before: Data, after: Data, seen: set<string>) {
    && (forall i :: 0 <= i < |events| ==>
          events[i].key in seen && EventFor(before, after, events[i].key) == Some(events[i]))
    && (forall i, j :: 0 <= i < j < |events| ==> events[i].key != events[j].key)
    && (forall k :: k in seen && EventFor(before, after, k).Some? ==> EventFor(before, after, k).value in events)
  }

  function Noted(events: seq<Event>, e: Option<Event>): seq<Event> {
    if e.Some? then events + [e.value] else events
  }

  lemma SoundStep(events: seq<Event>, before: Data, after: Data, seen: set<string>, k: string)
    requires Sound(events, before, after, seen) && k !in seen
    ensures Sound(Noted(events, EventFor(before, after, k)), before, after, seen + {k})
  {
    var more := Noted(events, EventFor(before, after, k));
    forall x | x in seen + {k} && EventFor(before, after, x).Some? ensures EventFor(before, after, x).value in more {
      if x == k { assert more[|events|] == EventFor(before, after, k).value; }
    }
  }

  /** The first loop: creates and updates, in any order of the new keys. */
  method ChangeEvents(before: Data, after: Data) returns (events: seq<Event>)
    ensures Sound(events, before, after, after.Keys)
  {
    hide Sound, SameValue;
    events := [];
    var todo := after.Keys;
    ghost var seen: set<string> := {};
    NothingSound(before, after);
    while todo != {}
      invariant seen + todo == after.Keys && seen !! todo
      invariant Sound(events, before, after, seen)
      decreases |todo|
    {
      var k :| k in todo;
      SoundStep(events, before, after, seen, k);
      if k in before {
        if !SameValue(before[k], after[k]) {
          events := events + [Updated(k, before[k], after[k])];
        }
      } else {
        events := events + [Created(k, after[k])];
      }
      todo, seen := todo - {k}, seen + {k};
    }
    assert seen == after.Keys;
  }

  /** The second loop: deletes, in any order of the old keys. */
  method DeleteEvents(before: Data, after: Data) returns (events: seq<Event>)
    ensures Sound(events, before, after, before.Keys - after.Keys)
  {
    hide Sound, SameValue;
    events := [];
    var todo := before.Keys;
    ghost var seen: set<string> := {};
    NothingSound(before, after);
    while todo != {}
      invariant todo <= before.Keys && forall k :: k in seen <==> k in before && k !in after && k !in todo
      invariant Sound(events, before, after, seen)
      decreases |todo|
    {
      var k :| k in todo;
      if k !in after {
        SoundStep(events, before, after, seen, k);
        events := events + [Deleted(k, before[k])];
        seen := seen + {k};
      }
      todo := todo - {k};
    }
    assert seen == before.Keys - after.Keys;
  }

  /** Creates and updates first, then deletes; a key is updated when its raw value or its type is
      another one. */
  method GenerateEvents(before: Data, after: Data) returns (events: seq<Event>)
    ensures Describes(events, before, after)
    ensures forall k, v :: Created(k, v) in events <==> k in after && k !in before && after[k] == v
    ensures forall k, v :: Deleted(k, v) in events <==> k in before && k !in after && before[k] == v
    ensures forall k, v, w ::
              Updated(k, v, w) in events <==>
                k in before && k in after && before[k] == v && after[k] == w && (v.raw != w.raw || v.typ != w.typ)
    ensures forall i, j :: 0 <= i < j < |events| ==> events[i].key != events[j].key
    ensures forall i, j :: 0 <= i < j < |events| && events[i].Deleted? ==> events[j].Deleted?
  {
    var changes := ChangeEvents(before, after);
    var deletes := DeleteEvents(before, after);
    SoundDescribes(changes, deletes, before, after);
    events := changes + deletes;
    DescribedEvents(events, before, after);
    hide Describes;
    SoundOrder(changes, deletes, before, after);
  }

  /** The described events, by kind, in the raw values and types of the two sides. */
  lemma DescribedEvents(events: seq<Event>, before: Data, after: Data)
    requires Describes(events, before, after)
    ensures forall k, v :: Created(k, v) in events <==> k in after && k !in before && after[k] == v
    ensures forall k, v :: Deleted(k, v) in events <==> k in before && k !in after && before[k] == v
    ensures forall k, v, w ::
              Updated(k, v, w) in events <==>
                k in before && k in after && before[k] == v && after[k] == w && (v.raw != w.raw || v.typ != w.typ)
    ensures forall i, j :: 0 <= i < j < |events| ==> events[i].key != events[j].key
  {
    forall e ensures e in events <==> EventFor(before, after, e.key) == Some(e) { }
  }

  lemma SoundOrder(changes: seq<Event>, deletes: seq<Event>, before: Data, after: Data)
    requires Sound(changes, before, after, after.Keys)
    requires Sound(deletes, before, after, before.Keys - after.Keys)
    ensures var events := changes + deletes;
            forall i, j :: 0 <= i < j < |events| && events[i].Deleted? ==> events[j].Deleted?
  {
    assert forall i :: 0 <= i < |changes| ==> changes[i].key in after && !changes[i].Deleted?;
    assert forall i :: 0 <= i < |deletes| ==> deletes[i].key !in after && deletes[i].Deleted?;
  }

  lemma NothingSound(before: Data, after: Data)
    ensures Sound([], before, after, {})
  {
  }

  lemma SoundDescribes(changes: seq<Event>, deletes: seq<Event>, before: Data, after: Data)
    requires Sound(changes, before, after, after.Keys)
    requires Sound(deletes, before, after, before.Keys - after.Keys)
    ensures Describes(changes + deletes, before, after)
  {
    var all := changes + deletes;
    forall e ensures e in all <==> e in changes || e in deletes { }
    forall k | EventFor(before, after, k).Some? ensures EventFor(before, after, k).value in all {
      assert k in after.Keys || k in before.Keys - after.Keys;
    }
  }

  /** The created, updated and deleted split is the one that the snapshot diff computes. */
  lemma EventsMatchDiff(events: seq<Event>, before: Data, after: Data, d: Snapshots.DiffResult)
    requires Describes(events, before, after) && Snapshots.IsDiff(before, after, d)
    ensures forall k, v :: Created(k, v) in events <==> k in d.created && d.created[k] == v
    ensures forall k, v :: Deleted(k, v) in events <==> k in d.deleted && d.deleted[k] == v
    ensures forall k, v, w ::
              Updated(k, v, w) in events <==> k in d.updated && d.updated[k] == Snapshots.DiffPair(v, w)
  {
    forall e ensures e in events <==> EventFor(before, after, e.key) == Some(e) { }
  }

  // ----- replay -----

  function Apply(d: Data, e: Event): Data {
    match e
    case Created(k, v) => d[k := v]
    case Updated(k, _, v) => d[k := v]
    case Deleted(k, _) => d - {k}
  }

  function Replay(d: Data, events: seq<Event>): Data {
    if events == [] then d else Apply(Replay(d, events[..|events| - 1]), events[|events| - 1])
  }

  /** Same keys, with the same raw values and types. */
  predicate Equivalent(a: Data, b: Data) {
    a.Keys == b.Keys && forall k :: k in a ==> SameValue(a[k], b[k])
  }

  lemma {:induction false} ReplayAppend(d: Data, a: seq<Event>, b: seq<Event>)
    ensures Replay(d, a + b) == Replay(Replay(d, a), b)
    decreases |b|
  {
    if b == [] {
      assert a + b == a;
    } else {
      assert (a + b)[..|a + b| - 1] == a + b[..|b| - 1];
      ReplayAppend(d, a, b[..|b| - 1]);
    }
  }

  function Result(e: Event): Option<Value> {
    if e.Deleted? then None else Some(e.new_)
  }

  /** A key that no event names keeps its value; one that a single event names gets its result. */
  lemma {:induction false} ReplayAt(d: Data, events: seq<Event>, k: string)
    requires forall i, j :: 0 <= i < j < |events| ==> events[i].key != events[j].key
    ensures (forall e :: e in events ==> e.key != k) ==> GetV(Replay(d, events), k) == GetV(d, k)
    ensures forall e :: e in events && e.key == k ==> GetV(Replay(d, events), k) == Result(e)
    decreases |events|
  {
    if events != [] {
      var n := |events| - 1;
      ReplayAt(d, events[..n], k);
      assert forall e :: e in events <==> e in events[..n] || e == events[n];
    }
  }

  /** Replaying the events of a swap takes a map equivalent to the old data to one equivalent to the
      new data. */
  lemma ReplaySwap(d: Data, events: seq<Event>, before: Data, after: Data)
    requires Equivalent(d, before) && Describes(events, before, after)
    ensures Equivalent(Replay(d, events), after)
  {
    var r := Replay(d, events);
    forall k ensures k in r <==> k in after
             ensures k in r ==> SameValue(r[k], after[k])
    {
      ReplayAt(d, events, k);
      if EventFor(before, after, k).Some? {
        var e := EventFor(before, after, k).value;
        assert e in events && e.key == k;
        assert GetV(r, k) == Result(e);
      } else {
        forall e | e in events ensures e.key != k { }
        assert GetV(r, k) == GetV(d, k);
      }
    }
  }

  // ----- every run -----

  datatype State = State(data: Data, version: nat, closed: bool, events: seq<Event>)

  /** The engine as constructed: empty data at version 1. */
  const INITIAL := State(map[], 1, false, [])

  datatype Op =
    | Update(data: Data, before: Option<string>, after: Option<string>)
    | Close

  const CLOSED_ERROR := "engine is closed"

  /** An update stores and emits unless the engine is closed or a before-hook fails; an after-hook
      error is returned with the new state in place. */
  ghost predicate Updates(s: State, op: Op, t: State, err: Option<string>)
    requires op.Update?
  {
    if s.closed then t == s && err == Some(CLOSED_ERROR)
    else if op.before.Some? then t == s && err == op.before
    else
      && t.data == op.data && t.version == s.version + 1 && t.closed == s.closed && err == op.after
      && s.events <= t.events && Describes(t.events[|s.events|..], s.data, op.data)
  }

  ghost predicate Transition(s: State, op: Op, t: State) {
    match op
    case Update(_, _, _) => exists err :: Updates(s, op, t, err)
    case Close => t == s.(closed := true)
  }

  ghost predicate Trace(states: seq<State>, ops: seq<Op>) {
    && |states| == |ops| + 1 && states[0] == INITIAL
    && forall i :: 0 <= i < |ops| ==> Transition(states[i], ops[i], states[i + 1])
  }

  /** The updates of a run that get through: those before any close whose before-hook succeeds. */
  function Stored(ops: seq<Op>): seq<Data> {
    if ops == [] then [] else
    var n := |ops| - 1;
    Stored(ops[..n]) +
      if ops[n].Update? && ops[n].before.None? && Close !in ops[..n] then [ops[n].data] else []
  }

  ghost predicate Replayable(s: State) {
    Equivalent(Replay(map[], s.events), s.data)
  }

  lemma UpdateReplayable(s: State, op: Op, t: State, err: Option<string>)
    requires op.Update? && Updates(s, op, t, err) && Replayable(s)
    ensures Replayable(t)
  {
    if !s.closed && op.before.None? {
      var more := t.events[|s.events|..];
      assert t.events == s.events + more;
      ReplayAppend(map[], s.events, more);
      ReplaySwap(Replay(map[], s.events), more, s.data, op.data);
    }
  }

  /** Over every run: the version is one more than the number of stores, the data is what the last
      store put there, and replaying all events from nothing rebuilds it. */
  lemma {:induction false} WholeRun(states: seq<State>, ops: seq<Op>)
    requires Trace(states, ops)
    ensures var s, stored := states[|ops|], Stored(ops);
            && s.version == 1 + |stored|
            && s.data == (if stored == [] then map[] else stored[|stored| - 1])
            && (s.closed <==> Close in ops)
            && Replayable(s)
    ensures var s := states[|ops|]; var rebuilt := Replay(map[], s.events);
            && rebuilt.Keys == s.data.Keys
            && forall k :: k in s.data ==> rebuilt[k].raw == s.data[k].raw && rebuilt[k].typ == s.data[k].typ
    decreases |ops|
  {
    if ops != [] {
      var n := |ops| - 1;
      assert Trace(states[..n + 1], ops[..n]);
      WholeRun(states[..n + 1], ops[..n]);
      assert Transition(states[n], ops[n], states[n + 1]);
      assert forall op :: op in ops <==> op in ops[..n] || op == ops[n];
      if ops[n].Update? {
        var err :| Updates(states[n], ops[n], states[n + 1], err);
        UpdateReplayable(states[n], ops[n], states[n + 1], err);
      }
    }
  }

  // ----- the engine -----

  class Engine {
    var data: Data
    var version: nat
    var closed: bool
    var events: seq<Event>   // everything the observers were notified of

    ghost function St(): State
      reads this
    {
      State(data, version, closed, events)
    }

    ghost predicate Valid()
      reads this
    {
      Replayable(St()) && version >= 1
    }

    constructor ()
      ensures Valid() && St() == INITIAL
      ensures data == map[] && version == 1 && !closed && events == []
    {
      data, version, closed, events := map[], 1, false, [];
    }

    method Update(newData: Data, before: Option<string>, after: Option<string>) returns (err: Option<string>)
      requires Valid()
      modifies this
      ensures Valid() && Updates(old(St()), Op.Update(newData, before, after), St(), err)
      ensures old(closed) ==> St() == old(St()) && err == Some("engine is closed")
      ensures !old(closed) && before.Some? ==> St() == old(St()) && err == before
      ensures !old(closed) && before.None? ==>
                && data == newData && version == old(version) + 1 && !closed && err == after
                && old(events) <= events
    {
      if closed { return Some(CLOSED_ERROR); }
      if before.Some? { return before; }
      ghost var s := St();
      var oldData := data;
      version := version + 1;
      data := newData;
      var more := GenerateEvents(oldData, newData);
      events := events + more;
      assert events[|s.events|..] == more;
      UpdateReplayable(s, Op.Update(newData, before, after), St(), after);
      err := after;
    }

    /** Load merges all sources by priority and updates; a failing source or load hook stores
        nothing. */
    method Load(beforeLoad: Option<string>, results: seq<Loaded>, before: Option<string>,
                after: Option<string>, afterLoad: Option<string>) returns (err: Option<string>)
      requires Valid()
      modifies this
      ensures Valid()
      ensures closed == old(closed)
      ensures old(closed) || beforeLoad.Some? || !AllLoaded(results) || before.Some? ==>
                St() == old(St()) && err.Some?
      ensures old(closed) ==> err == Some("engine is closed")
      ensures !old(closed) && beforeLoad.Some? ==> err == beforeLoad
      ensures !old(closed) && beforeLoad.None? && !AllLoaded(results) ==>
                exists i :: 0 <= i < |results| && AllLoaded(results[..i]) && results[i] == Failed(err.value)
      ensures !old(closed) && beforeLoad.None? && AllLoaded(results) && before.Some? ==> err == before
      ensures !old(closed) && beforeLoad.None? && AllLoaded(results) && before.None? ==>
                && Updates(old(St()), Op.Update(ByPriority(Datas(results)), before, after), St(), after)
                && err == (if after.Some? then after else afterLoad)
                && data == ByPriority(Datas(results)) && version == old(version) + 1
    {
      hide Stronger, Replayable, Updates;
      if closed { return Some(CLOSED_ERROR); }
      if beforeLoad.Some? { return beforeLoad; }
      var allData: Data := map[];
      for n := 0 to |results|
        invariant AllLoaded(results[..n]) && allData == ByPriority(Datas(results[..n]))
        invariant St() == old(St())
      {
        match results[n] {
          case Failed(e) => return Some(e);
          case Loaded(d) =>
            LoadedSnoc(results, n);
            allData := MergeInto(allData, d);
        }
      }
      assert results[..|results|] == results;
      err := Update(allData, before, after);
      if err.None? {
        err := afterLoad;
      }
    }

    method Close()
      requires Valid()
      modifies this
      ensures Valid() && St() == old(St()).(closed := true)
    {
      closed := true;
    }
  }
}
