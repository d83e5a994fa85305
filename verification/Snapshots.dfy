/** The snapshot manager and the snapshot diff of snapshot/snapshot.go. The clock is a parameter. */
module Snapshots {
  import opened Types
  import Checksum

  datatype Snapshot = Snapshot(id: nat, data: Data, timestamp: int, checksum: seq<bv8>)

  // ----- the log -----

  datatype Log = Log(snaps: seq<Snapshot>, nextID: nat)

  predicate Ordered(snaps: seq<Snapshot>) {
    forall i, j :: 0 <= i < j < |snaps| ==> snaps[i].timestamp <= snaps[j].timestamp
  }

  /** Stored ids are contiguous and end at the last id given out; the size is bounded; times do not
      go back. */
  predicate Inv(log: Log, maxSize: nat) {
    && |log.snaps| <= maxSize && |log.snaps| <= log.nextID
    && (forall i :: 0 <= i < |log.snaps| ==> log.snaps[i].id == log.nextID - |log.snaps| + 1 + i)
    && Ordered(log.snaps)
  }

  function Taken(log: Log, maxSize: nat, s: Snapshot): Log {
    var snaps := log.snaps + [s];
    Log(if |snaps| > maxSize then snaps[1..] else snaps, log.nextID + 1)
  }

  /** How many snapshots at the front are not after the cutoff. */
  function OldCount(snaps: seq<Snapshot>, cutoff: int): (n: nat)
    ensures n <= |snaps|
    ensures forall i :: 0 <= i < n ==> snaps[i].timestamp <= cutoff
    ensures n < |snaps| ==> snaps[n].timestamp > cutoff
  {
    if snaps == [] || snaps[0].timestamp > cutoff then 0 else 1 + OldCount(snaps[1..], cutoff)
  }

  lemma OldCountAt(snaps: seq<Snapshot>, i: nat, cutoff: int)
    requires i < |snaps|
    ensures OldCount(snaps[i..], cutoff) ==
            if snaps[i].timestamp > cutoff then 0 else 1 + OldCount(snaps[i + 1..], cutoff)
  {
    assert snaps[i..][1..] == snaps[i + 1..];
  }

  lemma NothingOld(snaps: seq<Snapshot>, cutoff: int)
    requires snaps == []
    ensures OldCount(snaps, cutoff) == 0
  {
  }

  /** In a log in order, the old snapshots are exactly the counted ones at the front. */
  lemma OldAtFront(snaps: seq<Snapshot>, cutoff: int)
    requires Ordered(snaps)
    ensures forall i :: 0 <= i < |snaps| ==> (snaps[i].timestamp <= cutoff <==> i < OldCount(snaps, cutoff))
  {
    var n := OldCount(snaps, cutoff);
    forall i | n <= i < |snaps| ensures snaps[i].timestamp > cutoff {
      assert i == n || snaps[n].timestamp <= snaps[i].timestamp;
    }
  }

  /** When every snapshot is old the scan finds none to keep and nothing is removed. */
  function Pruned(log: Log, cutoff: int): Log {
    var n := OldCount(log.snaps, cutoff);
    if n == |log.snaps| then log else log.(snaps := log.snaps[n..])
  }

  /** Pruning keeps exactly the newer snapshots if and only if there is a newer one or none at all. */
  lemma PruneExact(log: Log, maxSize: nat, cutoff: int)
    requires Inv(log, maxSize)
    ensures (forall s :: s in Pruned(log, cutoff).snaps <==> s in log.snaps && s.timestamp > cutoff)
            <==> log.snaps == [] || exists s :: s in log.snaps && s.timestamp > cutoff
    ensures exists k :: 0 <= k <= |log.snaps| && Pruned(log, cutoff).snaps == log.snaps[k..]
  {
    var n := OldCount(log.snaps, cutoff);
    if n == |log.snaps| {
      assert log.snaps[0..] == log.snaps;
      if log.snaps != [] {
        assert log.snaps[0] in log.snaps;
        forall s | s in log.snaps ensures s.timestamp <= cutoff {
          var i :| 0 <= i < |log.snaps| && log.snaps[i] == s;
        }
      }
    } else {
      assert log.snaps[n] in log.snaps;
      forall s | s in log.snaps && s.timestamp > cutoff ensures s in log.snaps[n..] {
        var i :| 0 <= i < |log.snaps| && log.snaps[i] == s;
        assert i >= n;
        assert log.snaps[n..][i - n] == s;
      }
      forall s | s in log.snaps[n..] ensures s.timestamp > cutoff {
        var i :| 0 <= i < |log.snaps[n..]| && log.snaps[n..][i] == s;
        assert i == 0 || log.snaps[n].timestamp <= log.snaps[n + i].timestamp;
      }
    }
  }

  // ----- every run -----

  datatype Op = Take(s: Snapshot) | Clear | Prune(cutoff: int)

  /** What the manager's caller cannot choose: ids count up and the clock does not go back. */
  predicate Fits(log: Log, op: Op) {
    op.Take? ==> op.s.id == log.nextID + 1 &&
                 (log.snaps != [] ==> log.snaps[|log.snaps| - 1].timestamp <= op.s.timestamp)
  }

  function Step(log: Log, maxSize: nat, op: Op): Log {
    match op
    case Take(s) => Taken(log, maxSize, s)
    case Clear => log.(snaps := [])
    case Prune(cutoff) => Pruned(log, cutoff)
  }

  function Run(maxSize: nat, ops: seq<Op>): Log {
    if ops == [] then Log([], 0) else Step(Run(maxSize, ops[..|ops| - 1]), maxSize, ops[|ops| - 1])
  }

  predicate Possible(maxSize: nat, ops: seq<Op>) {
    ops != [] ==> Possible(maxSize, ops[..|ops| - 1]) &&
                  Fits(Run(maxSize, ops[..|ops| - 1]), ops[|ops| - 1])
  }

  function TakeCount(ops: seq<Op>): nat {
    if ops == [] then 0 else TakeCount(ops[..|ops| - 1]) + if ops[|ops| - 1].Take? then 1 else 0
  }

  lemma StepKeepsInv(log: Log, maxSize: nat, op: Op)
    requires maxSize > 0 && Inv(log, maxSize) && Fits(log, op)
    ensures Inv(Step(log, maxSize, op), maxSize)
  {
    match op {
      case Take(s) =>
        OrderedSnoc(log.snaps, s);
        OrderedTail(log.snaps + [s]);
        hide Ordered;
      case Prune(cutoff) => OrderedFrom(log.snaps, OldCount(log.snaps, cutoff));
      case Clear =>
    }
  }

  lemma OrderedSnoc(snaps: seq<Snapshot>, s: Snapshot)
    requires Ordered(snaps) && (snaps != [] ==> snaps[|snaps| - 1].timestamp <= s.timestamp)
    ensures Ordered(snaps + [s])
  {
    var all := snaps + [s];
    forall i, j | 0 <= i < j < |all| ensures all[i].timestamp <= all[j].timestamp {
      if j == |snaps| && i < j - 1 { assert snaps[i].timestamp <= snaps[j - 1].timestamp; }
    }
  }

  lemma OrderedTail(snaps: seq<Snapshot>)
    requires Ordered(snaps) && snaps != []
    ensures Ordered(snaps[1..])
  {
  }

  lemma OrderedFrom(snaps: seq<Snapshot>, n: nat)
    requires Ordered(snaps) && n <= |snaps|
    ensures Ordered(snaps[n..])
  {
  }

  /** Over every run the invariant holds, and the last id is the number of snapshots ever taken. */
  lemma {:induction false} RunKeepsInv(maxSize: nat, ops: seq<Op>)
    requires maxSize > 0 && Possible(maxSize, ops)
    ensures Inv(Run(maxSize, ops), maxSize) && Run(maxSize, ops).nextID == TakeCount(ops)
  {
    if ops != [] {
      RunKeepsInv(maxSize, ops[..|ops| - 1]);
      StepKeepsInv(Run(maxSize, ops[..|ops| - 1]), maxSize, ops[|ops| - 1]);
    }
  }

  /** The snapshots taken since the last Clear, oldest first. */
  function SinceClear(ops: seq<Op>): seq<Snapshot> {
    if ops == [] then [] else
    var earlier := SinceClear(ops[..|ops| - 1]);
    match ops[|ops| - 1]
    case Take(s) => earlier + [s]
    case Clear => []
    case Prune(_) => earlier
  }

  /** Where the log ends up in what has been taken, one operation later. */
  lemma StepHolds(log: Log, maxSize: nat, op: Op, taken: seq<Snapshot>, n: nat) returns (m: nat)
    requires maxSize > 0 && n <= |taken| && log.snaps == taken[n..] && |log.snaps| <= maxSize
    ensures var more := match op case Take(s) => taken + [s] case Clear => [] case Prune(_) => taken;
            && m <= |more| && Step(log, maxSize, op).snaps == more[m..] && |more| - m <= maxSize
            && (op.Take? ==> m == if |more| - n > maxSize then n + 1 else n)
            && (op.Clear? ==> m == 0)
  {
    hide OldCount;
    match op {
      case Take(s) =>
        assert log.snaps + [s] == (taken + [s])[n..];
        m := if |log.snaps + [s]| > maxSize then n + 1 else n;
      case Prune(cutoff) =>
        var old_ := OldCount(log.snaps, cutoff);
        m := if old_ < |log.snaps| then n + old_ else n;
      case Clear => m := 0;
    }
  }

  /** After every run the log is an end of what has been taken since the last Clear; without pruning
      it is all of that, or the last `maxSize` snapshots of it. */
  lemma {:induction false} RunHolds(maxSize: nat, ops: seq<Op>) returns (n: nat)
    requires maxSize > 0
    ensures n <= |SinceClear(ops)| && Run(maxSize, ops).snaps == SinceClear(ops)[n..]
    ensures |Run(maxSize, ops).snaps| <= maxSize
    ensures ops != [] && ops[|ops| - 1] == Clear ==> Run(maxSize, ops).snaps == []
    ensures (forall op :: op in ops ==> !op.Prune?) ==>
              n == if |SinceClear(ops)| <= maxSize then 0 else |SinceClear(ops)| - maxSize
    decreases |ops|
  {
    hide Step;
    n := 0;
    if ops != [] {
      var before, op := ops[..|ops| - 1], ops[|ops| - 1];
      n := RunHolds(maxSize, before);
      n := StepHolds(Run(maxSize, before), maxSize, op, SinceClear(before), n);
      assert op in ops && forall o :: o in before ==> o in ops;
    }
  }

  // ----- the manager -----

  class Manager {
    var snapshots: seq<Snapshot>
    var nextID: nat
    const maxSize: nat

    ghost function State(): Log
      reads this
    {
      Log(snapshots, nextID)
    }

    ghost predicate Valid()
      reads this
    {
      maxSize > 0 && Inv(State(), maxSize)
    }

    constructor (max: int)
      ensures Valid() && State() == Log([], 0)
      ensures maxSize == if max <= 0 then 100 else max
    {
      snapshots, nextID := [], 0;
      maxSize := if max <= 0 then 100 else max;
    }

    method Take(data: Data, now: int) returns (s: Snapshot)
      requires Valid() && (snapshots != [] ==> snapshots[|snapshots| - 1].timestamp <= now)
      modifies this
      ensures Valid() && State() == Step(old(State()), maxSize, Op.Take(s)) && Fits(old(State()), Op.Take(s))
      ensures snapshots == (if |old(snapshots)| < maxSize then old(snapshots) else old(snapshots)[1..]) + [s]
      ensures nextID == old(nextID) + 1
      ensures s.id == nextID && s.data == data && s.timestamp == now
      ensures |s.checksum| == 16 && forall j :: 0 <= j < 16 ==> s.checksum[j] == Checksum.Sum(data, j)
    {
      ghost var log := State();
      nextID := nextID + 1;
      var checksum := Checksum.ComputeChecksum(data);
      s := Snapshot(nextID, data, now, checksum);
      snapshots := snapshots + [s];
      if |snapshots| > maxSize {
        snapshots := snapshots[1..];
      }
      StepKeepsInv(log, maxSize, Op.Take(s));
    }

    /** Binary search by id: a snapshot is found exactly when it is stored. */
    method Get(id: nat) returns (r: Option<Snapshot>)
      requires Valid()
      ensures r.Some? ==> r.value in snapshots && r.value.id == id
      ensures r.Some? <==> exists s :: s in snapshots && s.id == id
    {
      var left, right := 0, |snapshots| - 1;
      while left <= right
        invariant 0 <= left <= |snapshots| && -1 <= right < |snapshots|
        invariant forall i :: 0 <= i < |snapshots| && snapshots[i].id == id ==> left <= i <= right
        decreases right - left + 1
      {
        var mid := (left + right) / 2;
        if snapshots[mid].id == id { return Some(snapshots[mid]); }
        if snapshots[mid].id < id {
          left := mid + 1;
        } else {
          right := mid - 1;
        }
      }
      r := None;
    }

    method Latest() returns (r: Option<Snapshot>)
      requires Valid()
      ensures r.None? <==> snapshots == []
      ensures r.Some? ==> r.value in snapshots && r.value.id == nextID
      ensures r.Some? ==> forall s :: s in snapshots ==> s.timestamp <= r.value.timestamp && s.id <= r.value.id
    {
      if |snapshots| == 0 { return None; }
      r := Some(snapshots[|snapshots| - 1]);
    }

    /** Binary search by time: the latest snapshot not after `t`, or else the oldest. */
    method At(t: int) returns (r: Option<Snapshot>)
      requires Valid()
      ensures r.None? <==> snapshots == []
      ensures r.Some? ==> exists i ::
                && 0 <= i < |snapshots| && r.value == snapshots[i]
                && (i == 0 || snapshots[i].timestamp <= t)
                && forall j :: i < j < |snapshots| ==> snapshots[j].timestamp > t
    {
      if |snapshots| == 0 { return None; }
      var left, right := 0, |snapshots| - 1;
      while left < right
        invariant 0 <= left <= right < |snapshots|
        invariant left == 0 || snapshots[left].timestamp <= t
        invariant forall j :: right < j < |snapshots| ==> snapshots[j].timestamp > t
      {
        var mid := (left + right + 1) / 2;
        if snapshots[mid].timestamp > t {
          right := mid - 1;
        } else {
          left := mid;
        }
      }
      r := Some(snapshots[left]);
    }

    method Clear()
      requires Valid()
      modifies this
      ensures Valid() && State() == Step(old(State()), maxSize, Op.Clear)
      ensures snapshots == [] && nextID == old(nextID)
    {
      snapshots := [];
    }

    /** The count returned is the number of old snapshots, removed or not. */
    method Prune(olderThan: int, now: int) returns (pruned: nat)
      requires Valid()
      modifies this
      ensures Valid() && State() == Step(old(State()), maxSize, Op.Prune(now - olderThan))
      ensures pruned == OldCount(old(snapshots), now - olderThan)
      ensures nextID == old(nextID)
      ensures pruned <= |old(snapshots)| && forall i ::
                0 <= i < |old(snapshots)| ==> (old(snapshots)[i].timestamp <= now - olderThan <==> i < pruned)
      ensures snapshots == if pruned == |old(snapshots)| then old(snapshots) else old(snapshots)[pruned..]
    {
      OldAtFront(snapshots, now - olderThan);
      hide Inv, OldCount, Ordered;
      var cutoff := now - olderThan;
      ghost var log := State();
      var firstToKeep;
      firstToKeep, pruned := FirstToKeep(cutoff);
      if pruned > 0 {
        snapshots := snapshots[firstToKeep..];
      }
      StepKeepsInv(log, maxSize, Op.Prune(cutoff));
      assert log.snaps[0..] == log.snaps;
    }

    /** The scan of Prune: the index stays 0 when no snapshot is newer than the cutoff. */
    method FirstToKeep(cutoff: int) returns (firstToKeep: nat, pruned: nat)
      ensures pruned == OldCount(snapshots, cutoff)
      ensures firstToKeep == if pruned == |snapshots| then 0 else pruned
    {
      hide OldCount;
      pruned := 0;
      assert snapshots[0..] == snapshots;
      while pruned < |snapshots|
        invariant pruned <= |snapshots|
        invariant OldCount(snapshots, cutoff) == pruned + OldCount(snapshots[pruned..], cutoff)
      {
        OldCountAt(snapshots, pruned, cutoff);
        if snapshots[pruned].timestamp > cutoff {
          return pruned, pruned;
        }
        pruned := pruned + 1;
      }
      NothingOld(snapshots[pruned..], cutoff);
      firstToKeep := 0;
    }
  }

  // ----- differences -----

  datatype DiffPair = DiffPair(old_: Value, new_: Value)

  datatype DiffResult = DiffResult(
    created: Data, updated: map<string, DiffPair>, deleted: Data, unchanged_: Data)

  /** Go's `!=` on interfaces panics when both sides hold slices, or both hold maps. */
  predicate Uncomparable(a: Any, b: Any) {
    (a.List? && b.List?) || (a.Map? && b.Map?) || (a.Typed? && b.Typed? && Uncomparable(a.v.raw, b.v.raw))
  }

  /** The four maps hold exactly the keys of their kind, with the values of the two sides. */
  ghost predicate IsDiff(a: Data, b: Data, r: DiffResult) {
    && (forall k :: k in r.created <==> k in b && k !in a)
    && (forall k :: k in r.created ==> r.created[k] == b[k])
    && DiffOn(a, b, a.Keys, r)
  }

  /** The part of the diff that compares the keys in `seen` of the first side. */
  ghost predicate DiffOn(a: Data, b: Data, seen: set<string>, r: DiffResult)
    requires seen <= a.Keys
  {
    && (forall k :: k in r.deleted <==> k in seen && k !in b)
    && (forall k :: k in r.deleted ==> r.deleted[k] == a[k])
    && (forall k :: k in r.updated <==> k in seen && k in b && !SameValue(a[k], b[k]))
    && (forall k :: k in r.updated ==> r.updated[k] == DiffPair(a[k], b[k]))
    && (forall k :: k in r.unchanged_ <==> k in seen && k in b && SameValue(a[k], b[k]))
    && (forall k :: k in r.unchanged_ ==> r.unchanged_[k] == a[k])
  }

  /** The first loop: updates, deletes and unchanged keys, in any order of the first side. */
  method CompareAll(a: Data, b: Data) returns (r: Outcome<DiffResult>)
    ensures r.Panic? <==> exists k :: k in a && k in b && Uncomparable(a[k].raw, b[k].raw)
    ensures r.Ok? ==> DiffOn(a, b, a.Keys, r.value) && r.value.created == map[]
  {
    hide DiffOn, SameValue, Uncomparable, Differ;
    var d := DiffResult(map[], map[], map[], map[]);
    var todo := a.Keys;
    ghost var seen: set<string> := {};
    NothingCompared(a, b);
    while todo != {}
      invariant seen + todo == a.Keys && seen !! todo && d.created == map[]
      invariant forall k :: k in seen && k in b ==> !Uncomparable(a[k].raw, b[k].raw)
      invariant DiffOn(a, b, seen, d)
      decreases |todo|
    {
      var k :| k in todo;
      CompareStep(a, b, seen, k, d);
      if k in b {
        if Uncomparable(a[k].raw, b[k].raw) { return Panic; }
        if Differ(a[k], b[k]) {
          d := d.(updated := d.updated[k := DiffPair(a[k], b[k])]);
        } else {
          d := d.(unchanged_ := d.unchanged_[k := a[k]]);
        }
      } else {
        d := d.(deleted := d.deleted[k := a[k]]);
      }
      todo, seen := todo - {k}, seen + {k};
    }
    assert seen == a.Keys;
    r := Ok(d);
  }

  /** The second loop: keys that only the second side has. */
  method OnlyIn(b: Data, a: Data) returns (created: Data)
    ensures forall k :: k in created <==> k in b && k !in a
    ensures forall k :: k in created ==> created[k] == b[k]
  {
    created := map[];
    var todo := b.Keys;
    while todo != {}
      invariant todo <= b.Keys
      invariant forall k :: k in created <==> k in b && k !in todo && k !in a
      invariant forall k :: k in created ==> created[k] == b[k]
      decreases |todo|
    {
      var k :| k in todo;
      if k !in a {
        created := created[k := b[k]];
      }
      todo := todo - {k};
    }
  }

  /** The four maps split the keys of both snapshots; a common key with two lists or two maps makes
      the comparison panic. */
  method Diff(a: Data, b: Data) returns (r: Outcome<DiffResult>)
    ensures r.Panic? <==> exists k :: k in a && k in b && Uncomparable(a[k].raw, b[k].raw)
    ensures r.Ok? ==> IsDiff(a, b, r.value)
    ensures r.Ok? ==> forall k :: k in r.value.created <==> k in b && k !in a
    ensures r.Ok? ==> forall k :: k in r.value.deleted <==> k in a && k !in b
    ensures r.Ok? ==> forall k ::
              k in r.value.updated <==> k in a && k in b && (a[k].raw != b[k].raw || a[k].typ != b[k].typ)
    ensures r.Ok? ==> forall k ::
              k in r.value.unchanged_ <==> k in a && k in b && a[k].raw == b[k].raw && a[k].typ == b[k].typ
    ensures r.Ok? ==> forall k :: k in r.value.updated ==> r.value.updated[k] == DiffPair(a[k], b[k])
    ensures r.Ok? ==> forall k :: k in r.value.unchanged_ ==> r.value.unchanged_[k] == a[k]
  {
    hide DiffOn, Uncomparable;
    r := CompareAll(a, b);
    if r.Ok? {
      var created := OnlyIn(b, a);
      var d := r.value.(created := created);
      CreatedApart(a, b, r.value, d);
      DiffKeys(a, b, d);
      r := Ok(d);
    }
  }

  /** The comparison of two values in their raw values and types. */
  lemma DiffKeys(a: Data, b: Data, d: DiffResult)
    requires DiffOn(a, b, a.Keys, d)
    ensures forall k :: k in d.deleted <==> k in a && k !in b
    ensures forall k :: k in d.updated <==> k in a && k in b && (a[k].raw != b[k].raw || a[k].typ != b[k].typ)
    ensures forall k :: k in d.unchanged_ <==> k in a && k in b && a[k].raw == b[k].raw && a[k].typ == b[k].typ
    ensures forall k :: k in d.updated ==> d.updated[k] == DiffPair(a[k], b[k])
    ensures forall k :: k in d.unchanged_ ==> d.unchanged_[k] == a[k]
  {
  }

  /** Two slices or two maps cannot be compared, nor can values that hold such; anything else can. */
  lemma UncomparableShapes(x: seq<Any>, y: seq<Any>, m: map<string, Any>, n: map<string, Any>, v: Value, w: Value,
                           a: Any, b: Any)
    ensures Uncomparable(List(x), List(y)) && Uncomparable(Map(m), Map(n))
    ensures Uncomparable(Typed(v), Typed(w)) <==> Uncomparable(v.raw, w.raw)
    ensures Uncomparable(a, b) ==> (a.List? && b.List?) || (a.Map? && b.Map?) || (a.Typed? && b.Typed?)
  {
  }

  /** `av.Raw() != bv.Raw() || av.Type() != bv.Type()` */
  predicate Differ(a: Value, b: Value) {
    a.raw != b.raw || a.typ != b.typ
  }

  lemma NothingCompared(a: Data, b: Data)
    ensures DiffOn(a, b, {}, DiffResult(map[], map[], map[], map[]))
  {
  }

  lemma CompareStep(a: Data, b: Data, seen: set<string>, k: string, d: DiffResult)
    requires seen <= a.Keys && k in a && k !in seen && DiffOn(a, b, seen, d)
    ensures DiffOn(a, b, seen + {k},
              if k !in b then d.(deleted := d.deleted[k := a[k]])
              else if Differ(a[k], b[k]) then d.(updated := d.updated[k := DiffPair(a[k], b[k])])
              else d.(unchanged_ := d.unchanged_[k := a[k]]))
  {
  }

  lemma CreatedApart(a: Data, b: Data, d: DiffResult, e: DiffResult)
    requires DiffOn(a, b, a.Keys, d) && e == d.(created := e.created)
    ensures DiffOn(a, b, a.Keys, e)
  {
  }
}
