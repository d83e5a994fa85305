/** The merge strategies of merge/merge.go. */
module Merge {
  import opened Types
  import opened Flattening

  datatype Strategy = StrategyPriority | StrategyFirst | StrategyLast | StrategyDeep

  // ----- priority -----

  /** The later map's value wins only where its priority is strictly higher. */
  ghost function Stronger(a: Data, b: Data): Data {
    Tabulate(a.Keys + b.Keys, k requires k in a.Keys + b.Keys =>
      if k in b && (k !in a || b[k].priority > a[k].priority) then b[k] else a[k])
  }

  ghost function ByPriority(sources: seq<Data>): Data {
    if sources == [] then map[] else Stronger(ByPriority(sources[..|sources| - 1]), sources[|sources| - 1])
  }

  lemma ByPrioritySnoc(sources: seq<Data>, d: Data)
    ensures ByPriority(sources + [d]) == Stronger(ByPriority(sources), d)
  {
    hide Stronger;
    assert (sources + [d])[..|sources|] == sources;
  }

  lemma StrongerAssociative(a: Data, b: Data, c: Data)
    ensures Stronger(Stronger(a, b), c) == Stronger(a, Stronger(b, c))
  {
    hide Stronger;
    var l, r := Stronger(Stronger(a, b), c), Stronger(a, Stronger(b, c));
    forall k ensures GetV(l, k) == GetV(r, k) {
      GetStronger(a, b, k);
      GetStronger(b, c, k);
      GetStronger(Stronger(a, b), c, k);
      GetStronger(a, Stronger(b, c), k);
    }
    SameData(l, r);
  }

  lemma StrongerIdentity(a: Data)
    ensures Stronger(map[], a) == a == Stronger(a, map[])
  {
  }

  /** Merging can be split anywhere. */
  lemma {:induction false} ByPriorityAppend(a: seq<Data>, b: seq<Data>)
    ensures ByPriority(a + b) == Stronger(ByPriority(a), ByPriority(b))
    decreases |b|
  {
    if b == [] {
      assert a + b == a;
      StrongerIdentity(ByPriority(a));
    } else {
      var n := |b| - 1;
      assert (a + b)[..|a + b| - 1] == a + b[..n];
      ByPriorityAppend(a, b[..n]);
      StrongerAssociative(ByPriority(a), ByPriority(b[..n]), b[n]);
    }
  }

  function Pick(a: Option<Value>, b: Option<Value>): Option<Value> {
    if b.Some? && (a.None? || b.value.priority > a.value.priority) then b else a
  }

  lemma GetStronger(a: Data, b: Data, k: string)
    ensures GetV(Stronger(a, b), k) == Pick(GetV(a, k), GetV(b, k))
  {
  }

  lemma SameData(a: Data, b: Data)
    requires forall k :: GetV(a, k) == GetV(b, k)
    ensures a == b
  {
    forall k | k in a ensures k in b && a[k] == b[k] { assert GetV(a, k) == GetV(b, k); }
    forall k | k in b ensures k in a { assert GetV(a, k) == GetV(b, k); }
  }

  /** Source `i` holds `k`; earlier sources are weaker there, later ones no stronger. */
  ghost predicate LeftmostMax(sources: seq<Data>, k: string, i: nat) {
    && i < |sources| && k in sources[i]
    && (forall j :: 0 <= j < i && k in sources[j] ==> sources[j][k].priority < sources[i][k].priority)
    && (forall j :: i < j < |sources| && k in sources[j] ==> sources[j][k].priority <= sources[i][k].priority)
  }

  lemma {:induction false} WinnerIndex(sources: seq<Data>, k: string) returns (i: nat)
    requires k in ByPriority(sources)
    ensures LeftmostMax(sources, k, i) && ByPriority(sources)[k] == sources[i][k]
  {
    hide LeftmostMax, Stronger;
    var n := |sources| - 1;
    var init := sources[..n];
    GetStronger(ByPriority(init), sources[n], k);
    if k in ByPriority(init) {
      var j := WinnerIndex(init, k);
      MaxExtends(sources, k, j);
      i := if k !in sources[n] || sources[n][k].priority <= sources[j][k].priority then j else n;
    } else {
      MaxAlone(sources, k);
      i := n;
    }
  }

  /** A winner of all but the last source stays one, or gives way to a strictly stronger last. */
  lemma MaxExtends(sources: seq<Data>, k: string, j: nat)
    requires sources != [] && LeftmostMax(sources[..|sources| - 1], k, j)
    ensures var n := |sources| - 1;
            && j < n && sources[..n][j] == sources[j] && k in sources[j]
            && LeftmostMax(sources, k,
                           if k !in sources[n] || sources[n][k].priority <= sources[j][k].priority then j else n)
  {
    var init := sources[..|sources| - 1];
    assert forall x :: 0 <= x < |init| ==> init[x] == sources[x];
  }

  lemma MaxAlone(sources: seq<Data>, k: string)
    requires sources != [] && k in sources[|sources| - 1] && k !in ByPriority(sources[..|sources| - 1])
    ensures LeftmostMax(sources, k, |sources| - 1)
  {
    hide ByPriority;
    NoWinner(sources[..|sources| - 1], k);
    var init := sources[..|sources| - 1];
    assert forall x :: 0 <= x < |init| ==> init[x] == sources[x];
  }

  lemma {:induction false} NoWinner(sources: seq<Data>, k: string)
    ensures k !in ByPriority(sources) <==> forall i :: 0 <= i < |sources| ==> k !in sources[i]
  {
    if sources != [] {
      hide Stronger;
      var n := |sources| - 1;
      NoWinner(sources[..n], k);
      GetStronger(ByPriority(sources[..n]), sources[n], k);
      assert forall j :: 0 <= j < n ==> sources[..n][j] == sources[j];
    }
  }

  /** The priority merge holds, for each key of any source, its leftmost maximum, and nothing else. */
  lemma {:induction false} ByPriorityIsLeftmostMax(sources: seq<Data>, k: string)
    ensures k in ByPriority(sources) <==> exists i :: 0 <= i < |sources| && k in sources[i]
    ensures forall i: nat :: LeftmostMax(sources, k, i) ==>
              k in ByPriority(sources) && ByPriority(sources)[k] == sources[i][k]
  {
    NoWinner(sources, k);
    if k in ByPriority(sources) {
      var w := WinnerIndex(sources, k);
      forall i: nat | LeftmostMax(sources, k, i) ensures i == w {
        assert k in sources[i] && k in sources[w];
      }
    }
  }

  lemma StrongerUpdate(acc: Data, part: Data, k: string, v: Value)
    requires k !in part
    ensures GetV(Stronger(acc, part), k) == GetV(acc, k)
    ensures Stronger(acc, part[k := v]) ==
            if k !in acc || v.priority > acc[k].priority then Stronger(acc, part)[k := v] else Stronger(acc, part)
  {
    hide Stronger;
    var old_, new_ := Stronger(acc, part), Stronger(acc, part[k := v]);
    var want := if k !in acc || v.priority > acc[k].priority then old_[k := v] else old_;
    GetStronger(acc, part, k);
    forall x ensures GetV(new_, x) == GetV(want, x) {
      GetStronger(acc, part, x);
      GetStronger(acc, part[k := v], x);
    }
    SameData(new_, want);
  }

  lemma SameGet(a: Data, b: Data, k: string)
    requires GetV(a, k) == GetV(b, k)
    ensures k in a <==> k in b
    ensures k in a ==> a[k] == b[k]
  {
  }

  /** The entries of `source` whose keys are not still to do. */
  predicate PartOf(part: Data, source: Data, todo: set<string>) {
    part.Keys + todo == source.Keys && part.Keys !! todo && forall k :: k in part ==> part[k] == source[k]
  }

  lemma PartStart(source: Data)
    ensures PartOf(map[], source, source.Keys)
  {
  }

  lemma PartStep(part: Data, source: Data, todo: set<string>, k: string)
    requires PartOf(part, source, todo) && k in todo
    ensures k in source && k !in part && PartOf(part[k := source[k]], source, todo - {k})
  {
  }

  lemma PartDone(part: Data, source: Data)
    requires PartOf(part, source, {})
    ensures part == source
  {
  }

  /** The inner loop of every priority merge: one source, its keys in any order. */
  method MergeInto(acc: Data, source: Data) returns (result: Data)
    ensures result == Stronger(acc, source)
  {
    hide Stronger, PartOf, GetV;
    result := acc;
    PartStart(source);
    var todo := source.Keys;
    ghost var part: Data := map[];
    StrongerIdentity(acc);
    while todo != {}
      invariant PartOf(part, source, todo) && result == Stronger(acc, part)
      decreases |todo|
    {
      var k :| k in todo;
      PartStep(part, source, todo, k);
      var v := source[k];
      StrongerUpdate(acc, part, k, v);
      SameGet(result, acc, k);
      if k !in result || v.priority > result[k].priority {
        result := result[k := v];
      }
      part, todo := part[k := v], todo - {k};
    }
    PartDone(part, source);
  }

  /** The result for no sources is Go's nil map, which reads as empty. */
  method MergePriority(sources: seq<Data>) returns (result: Data)
    ensures result == ByPriority(sources)
  {
    if |sources| == 0 { return map[]; }
    if |sources| == 1 {
      assert sources[..0] == [];
      StrongerIdentity(sources[0]);
      return sources[0];
    }
    result := map[];
    for n := 0 to |sources|
      invariant result == ByPriority(sources[..n])
    {
      result := MergeInto(result, sources[n]);
      assert sources[..n + 1][..n] == sources[..n];
    }
    assert sources[..|sources|] == sources;
  }

  // ----- first and last -----

  function ByLast(sources: seq<Data>): Data {
    if sources == [] then map[] else ByLast(sources[..|sources| - 1]) + sources[|sources| - 1]
  }

  function ByFirst(sources: seq<Data>): Data {
    if sources == [] then map[] else sources[|sources| - 1] + ByFirst(sources[..|sources| - 1])
  }

  /** Each key has the value of the first, or of the last, source that holds it, and nothing else is there. */
  lemma {:induction false} FirstAndLast(sources: seq<Data>, k: string, i: nat)
    requires i < |sources| && k in sources[i]
    ensures k in ByFirst(sources) && k in ByLast(sources)
    ensures (forall j :: 0 <= j < i ==> k !in sources[j]) ==> ByFirst(sources)[k] == sources[i][k]
    ensures (forall j :: i < j < |sources| ==> k !in sources[j]) ==> ByLast(sources)[k] == sources[i][k]
    decreases |sources|
  {
    var n := |sources| - 1;
    assert forall j :: 0 <= j < n ==> sources[..n][j] == sources[j];
    if i < n {
      FirstAndLast(sources[..n], k, i);
    } else {
      NoneHolds(sources[..n], k);
    }
  }

  lemma {:induction false} NoneHolds(sources: seq<Data>, k: string)
    ensures (forall j :: 0 <= j < |sources| ==> k !in sources[j]) ==> k !in ByFirst(sources) && k !in ByLast(sources)
  {
    if sources != [] {
      var n := |sources| - 1;
      assert forall j :: 0 <= j < n ==> sources[..n][j] == sources[j];
      NoneHolds(sources[..n], k);
    }
  }

  lemma PlusUpdate(a: Data, b: Data, k: string, v: Value)
    ensures a + b[k := v] == (a + b)[k := v]
    ensures a[k := v] + b == if k in b then a + b else (a + b)[k := v]
  {
  }

  method FillFrom(acc: Data, source: Data) returns (result: Data)
    ensures result == source + acc
  {
    hide PartOf;
    PartStart(source);
    result := acc;
    var todo := source.Keys;
    ghost var part: Data := map[];
    while todo != {}
      invariant PartOf(part, source, todo) && result == part + acc
      decreases |todo|
    {
      var k :| k in todo;
      PartStep(part, source, todo, k);
      PlusUpdate(part, acc, k, source[k]);
      if k !in result { result := result[k := source[k]]; }
      part, todo := part[k := source[k]], todo - {k};
    }
    PartDone(part, source);
  }

  method OverwriteFrom(acc: Data, source: Data) returns (result: Data)
    ensures result == acc + source
  {
    hide PartOf;
    PartStart(source);
    result := acc;
    var todo := source.Keys;
    ghost var part: Data := map[];
    while todo != {}
      invariant PartOf(part, source, todo) && result == acc + part
      decreases |todo|
    {
      var k :| k in todo;
      PartStep(part, source, todo, k);
      PlusUpdate(acc, part, k, source[k]);
      result := result[k := source[k]];
      part, todo := part[k := source[k]], todo - {k};
    }
    PartDone(part, source);
  }

  method MergeFirst(sources: seq<Data>) returns (result: Data)
    ensures result == ByFirst(sources)
  {
    if |sources| == 0 { return map[]; }
    if |sources| == 1 {
      assert sources[..0] == [] && sources[0] + map[] == sources[0];
      return sources[0];
    }
    result := map[];
    for n := 0 to |sources|
      invariant result == ByFirst(sources[..n])
    {
      result := FillFrom(result, sources[n]);
      assert sources[..n + 1][..n] == sources[..n];
    }
    assert sources[..|sources|] == sources;
  }

  method MergeLast(sources: seq<Data>) returns (result: Data)
    ensures result == ByLast(sources)
  {
    if |sources| == 0 { return map[]; }
    if |sources| == 1 {
      assert sources[..0] == [] && map[] + sources[0] == sources[0];
      return sources[0];
    }
    result := map[];
    for n := 0 to |sources|
      invariant result == ByLast(sources[..n])
    {
      result := OverwriteFrom(result, sources[n]);
      assert sources[..n + 1][..n] == sources[..n];
    }
    assert sources[..|sources|] == sources;
  }

  // ----- conflict resolution -----

  const ZERO_VALUE := Value(Nil, "", TypeUnknown, SourceNone, 0)

  /** The values that the sources hold for one key, in order. */
  function ValuesFor(sources: seq<Data>, k: string): seq<Value> {
    if sources == [] then [] else
    var last := sources[|sources| - 1];
    ValuesFor(sources[..|sources| - 1], k) + if k in last then [last[k]] else []
  }

  /** The first value whose priority no other exceeds. */
  function Best(values: seq<Value>): Value
    requires values != []
  {
    var n := |values| - 1;
    if n == 0 then values[0] else
    var b := Best(values[..n]);
    if values[n].priority > b.priority then values[n] else b
  }

  lemma {:induction false} BestFirst(values: seq<Value>) returns (i: nat)
    requires values != []
    ensures i < |values| && Best(values) == values[i]
    ensures forall j :: 0 <= j < i ==> values[j].priority < values[i].priority
    ensures forall j :: i <= j < |values| ==> values[j].priority <= values[i].priority
  {
    var n := |values| - 1;
    i := 0;
    if n > 0 {
      i := BestFirst(values[..n]);
      assert forall j :: 0 <= j < n ==> values[..n][j] == values[j];
      if values[n].priority > values[i].priority { i := n; }
    }
  }

  method Resolve(values: seq<Value>, strategy: Strategy) returns (r: Value)
    ensures values == [] ==> r == Value(Nil, "", TypeUnknown, SourceNone, 0)
    ensures values != [] && strategy.StrategyPriority? ==>
              exists i :: 0 <= i < |values| && r == values[i]
                && (forall j :: 0 <= j < i ==> values[j].priority < r.priority)
                && forall j :: 0 <= j < |values| ==> values[j].priority <= r.priority
    ensures values != [] && strategy.StrategyPriority? ==> r == Best(values)
    ensures values != [] && strategy.StrategyLast? ==> r == values[|values| - 1]
    ensures values != [] && (strategy.StrategyFirst? || strategy.StrategyDeep?) ==> r == values[0]
  {
    if |values| == 0 { return ZERO_VALUE; }
    ghost var i := BestFirst(values);
    if |values| == 1 { return values[0]; }
    match strategy
    case StrategyPriority =>
      var best := values[0];
      assert values[..1][0] == values[0];
      for n := 1 to |values|
        invariant best == Best(values[..n])
      {
        assert values[..n + 1][..n] == values[..n];
        if values[n].priority > best.priority { best := values[n]; }
      }
      assert values[..|values|] == values;
      return best;
    case StrategyLast => return values[|values| - 1];
    case _ => return values[0];
  }

  /** Resolving the per-key list picks what merging whole maps picks, for all three strategies. */
  lemma {:induction false} ResolveAgrees(sources: seq<Data>, k: string)
    ensures var vs := ValuesFor(sources, k);
            && GetV(ByPriority(sources), k) == (if vs == [] then None else Some(Best(vs)))
            && GetV(ByLast(sources), k) == (if vs == [] then None else Some(vs[|vs| - 1]))
            && GetV(ByFirst(sources), k) == (if vs == [] then None else Some(vs[0]))
  {
    if sources != [] {
      hide Stronger, Best;
      var n := |sources| - 1;
      var init, last := sources[..n], sources[n];
      ResolveAgrees(init, k);
      GetStronger(ByPriority(init), last, k);
      var vs := ValuesFor(init, k);
      if k in last {
        BestSnoc(vs, last[k]);
        assert ValuesFor(sources, k) == vs + [last[k]];
      } else {
        assert ValuesFor(sources, k) == vs;
      }
    }
  }

  lemma BestSnoc(vs: seq<Value>, v: Value)
    ensures Best(vs + [v]) == if vs == [] || v.priority > Best(vs).priority then v else Best(vs)
  {
    assert (vs + [v])[..|vs|] == vs;
  }
}
