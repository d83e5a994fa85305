/** The sequential and the concurrent loader of loader/loader.go. Loading one source is given as its
    outcome. */
module Loader {
  import opened Types
  import opened Flattening
  import opened Merge

  /** What loading one source gives. */
  datatype Loaded = Loaded(data: Data) | Failed(error: string)

  datatype LoadResult = Merged(data: Data) | LoadError(error: string) | Cancelled

  function Datas(results: seq<Loaded>): seq<Data>
    requires forall i :: 0 <= i < |results| ==> results[i].Loaded?
  {
    seq(|results|, i requires 0 <= i < |results| => results[i].data)
  }

  predicate AllLoaded(results: seq<Loaded>) {
    forall i :: 0 <= i < |results| ==> results[i].Loaded?
  }

  lemma LoadedSnoc(results: seq<Loaded>, n: nat)
    requires n < |results| && AllLoaded(results[..n]) && results[n].Loaded?
    ensures AllLoaded(results[..n + 1])
    ensures ByPriority(Datas(results[..n + 1])) == Stronger(ByPriority(Datas(results[..n])), results[n].data)
  {
    hide Stronger, ByPriority;
    assert Datas(results[..n + 1]) == Datas(results[..n]) + [results[n].data];
    ByPrioritySnoc(Datas(results[..n]), results[n].data);
  }

  /** The merged data in terms of the results themselves: of the sources that hold a key the first with
      the highest priority gives the value. */
  ghost predicate Winner(results: seq<Loaded>, k: string, i: nat)
    requires AllLoaded(results)
  {
    && i < |results| && k in results[i].data
    && (forall j :: 0 <= j < i && k in results[j].data ==> results[j].data[k].priority < results[i].data[k].priority)
    && (forall j :: i < j < |results| && k in results[j].data ==>
          results[j].data[k].priority <= results[i].data[k].priority)
  }

  lemma MergedResults(results: seq<Loaded>)
    requires AllLoaded(results)
    ensures var m := ByPriority(Datas(results));
            && (forall k :: k in m <==> exists i :: 0 <= i < |results| && k in results[i].data)
            && forall k, i: nat :: Winner(results, k, i) ==> k in m && m[k] == results[i].data[k]
  {
    hide ByPriority;
    var ds := Datas(results);
    forall k ensures k in ByPriority(ds) <==> exists i :: 0 <= i < |results| && k in results[i].data {
      ByPriorityIsLeftmostMax(ds, k);
      assert forall i :: 0 <= i < |ds| ==> ds[i] == results[i].data;
    }
    forall k, i: nat | Winner(results, k, i) ensures k in ByPriority(ds) && ByPriority(ds)[k] == results[i].data[k] {
      ByPriorityIsLeftmostMax(ds, k);
      assert LeftmostMax(ds, k, i);
    }
  }

  /** Loader.Load: the first failure in source order ends it, otherwise the priority merge. */
  method Load(results: seq<Loaded>) returns (r: LoadResult)
    ensures AllLoaded(results) ==> r == Merged(ByPriority(Datas(results)))
    ensures AllLoaded(results) ==> r.Merged? && forall k, i: nat :: Winner(results, k, i) ==>
              k in r.data && r.data[k] == results[i].data[k]
    ensures !AllLoaded(results) ==>
              exists i :: 0 <= i < |results| && results[i].Failed? && AllLoaded(results[..i]) &&
                          r == LoadError(results[i].error)
  {
    hide Stronger;
    var result: Data := map[];
    for n := 0 to |results|
      invariant AllLoaded(results[..n]) && result == ByPriority(Datas(results[..n]))
    {
      match results[n] {
        case Failed(e) => return LoadError(e);
        case Loaded(data) =>
          LoadedSnoc(results, n);
          result := MergeInto(result, data);
      }
    }
    assert results[..|results|] == results;
    MergedResults(results);
    r := Merged(result);
  }

  /** ConcurrentLoader.Load: results are consumed in arrival order; `cancelAt`, if it comes first,
      is the receive at which the cancelled context is noticed instead. */
  method LoadConcurrent(arrivals: seq<Loaded>, cancelAt: Option<nat>) returns (r: LoadResult)
    ensures AllLoaded(arrivals) && (cancelAt.None? || cancelAt.value >= |arrivals|) ==>
              r == Merged(ByPriority(Datas(arrivals)))
    ensures r.Merged? ==> AllLoaded(arrivals) && (cancelAt.None? || cancelAt.value >= |arrivals|)
    ensures r.Merged? ==> forall k, i: nat :: Winner(arrivals, k, i) ==>
              k in r.data && r.data[k] == arrivals[i].data[k]
    ensures r.Cancelled? ==> cancelAt.Some? && cancelAt.value < |arrivals| && AllLoaded(arrivals[..cancelAt.value])
    ensures r.LoadError? ==>
              exists i :: 0 <= i < |arrivals| && arrivals[i] == Failed(r.error) && AllLoaded(arrivals[..i]) &&
                          (cancelAt.None? || i < cancelAt.value)
  {
    hide Stronger;
    var final: Data := map[];
    for n := 0 to |arrivals|
      invariant AllLoaded(arrivals[..n]) && final == ByPriority(Datas(arrivals[..n]))
      invariant cancelAt.Some? ==> n <= cancelAt.value
    {
      if cancelAt == Some(n) { return Cancelled; }
      match arrivals[n] {
        case Failed(e) => return LoadError(e);
        case Loaded(data) =>
          LoadedSnoc(arrivals, n);
          final := MergeInto(final, data);
      }
    }
    assert arrivals[..|arrivals|] == arrivals;
    MergedResults(arrivals);
    r := Merged(final);
  }

  // ----- independence of the arrival order -----

  predicate Attained(sources: seq<Data>, k: string, p: int) {
    exists i :: 0 <= i < |sources| && k in sources[i] && sources[i][k].priority == p
  }

  predicate Bounded(sources: seq<Data>, k: string, p: int) {
    forall i :: 0 <= i < |sources| && k in sources[i] ==> sources[i][k].priority <= p
  }

  lemma WinnerIsMax(sources: seq<Data>, k: string)
    requires k in ByPriority(sources)
    ensures var p := ByPriority(sources)[k].priority; Attained(sources, k, p) && Bounded(sources, k, p)
  {
    var i := WinnerIndex(sources, k);
  }

  lemma SameMembers(a: seq<Data>, b: seq<Data>, i: nat) returns (j: nat)
    requires multiset(a) == multiset(b) && i < |a|
    ensures j < |b| && b[j] == a[i]
  {
    assert a[i] in multiset(b);
    j :| 0 <= j < |b| && b[j] == a[i];
  }

  lemma SameBounds(a: seq<Data>, b: seq<Data>, k: string, p: int)
    requires multiset(a) == multiset(b) && Attained(a, k, p) && Bounded(a, k, p)
    ensures Attained(b, k, p) && Bounded(b, k, p)
  {
    var i :| 0 <= i < |a| && k in a[i] && a[i][k].priority == p;
    var j := SameMembers(a, b, i);
    forall x: nat | x < |b| && k in b[x] ensures b[x][k].priority <= p {
      var y := SameMembers(b, a, x);
    }
  }

  /** Whatever order the sources answer in, the same keys are loaded, and the winning value of each
      key has the same priority. */
  lemma ArrivalOrderPriority(a: seq<Data>, b: seq<Data>, k: string)
    requires multiset(a) == multiset(b)
    ensures k in ByPriority(a) <==> k in ByPriority(b)
    ensures k in ByPriority(a) ==> ByPriority(a)[k].priority == ByPriority(b)[k].priority
  {
    NoWinner(a, k);
    NoWinner(b, k);
    forall i: nat | i < |a| && k in a[i] ensures exists j :: 0 <= j < |b| && k in b[j] {
      var j := SameMembers(a, b, i);
    }
    forall i: nat | i < |b| && k in b[i] ensures exists j :: 0 <= j < |a| && k in a[j] {
      var j := SameMembers(b, a, i);
    }
    if k in ByPriority(a) {
      WinnerIsMax(a, k);
      WinnerIsMax(b, k);
      SameBounds(a, b, k, ByPriority(a)[k].priority);
    }
  }

  /** Source `i` gives the key the highest priority that any source gives it. */
  ghost predicate Top(sources: seq<Data>, k: string, i: nat) {
    i < |sources| && k in sources[i] && Bounded(sources, k, sources[i][k].priority)
  }

  /** Wherever sources tie for the highest priority of a key, they give it the same value. */
  ghost predicate TopTiesAgree(sources: seq<Data>) {
    forall k, i: nat, j: nat :: Top(sources, k, i) && Top(sources, k, j) ==> sources[i][k] == sources[j][k]
  }

  lemma {:induction false} TiesAgreeSame(a: seq<Data>, b: seq<Data>)
    requires multiset(a) == multiset(b) && TopTiesAgree(a)
    ensures ByPriority(a) == ByPriority(b)
  {
    forall k ensures GetV(ByPriority(a), k) == GetV(ByPriority(b), k) {
      ArrivalOrderPriority(a, b, k);
      if k in ByPriority(a) {
        WinnerIsMax(a, k);
        var i := WinnerIndex(a, k);
        var j := WinnerIndex(b, k);
        var x := SameMembers(b, a, j);
        assert Top(a, k, i) && Top(a, k, x);
      }
    }
    SameData(ByPriority(a), ByPriority(b));
  }

  /** Two sources that tie at the top with different values: swapping the winner with the other one
      changes the result. */
  lemma {:induction false} TieSwapped(a: seq<Data>, k: string, t: nat) returns (b: seq<Data>)
    requires Top(a, k, t) && k in ByPriority(a) && ByPriority(a)[k] != a[t][k]
    ensures multiset(b) == multiset(a) && ByPriority(b) != ByPriority(a)
  {
    var w := WinnerIndex(a, k);
    WinnerIsMax(a, k);
    b := a[w := a[t]][t := a[w]];
    assert w < t;
    assert LeftmostMax(b, k, w);
    ByPriorityIsLeftmostMax(b, k);
  }

  /** The order in which sources answer never matters if and only if top ties agree. Ties below the
      highest priority do not count, and neither do equal values. */
  lemma {:induction false} ArrivalOrderIrrelevant(a: seq<Data>)
    ensures (forall b :: multiset(b) == multiset(a) ==> ByPriority(b) == ByPriority(a)) <==> TopTiesAgree(a)
  {
    if TopTiesAgree(a) {
      forall b | multiset(b) == multiset(a) ensures ByPriority(b) == ByPriority(a) { TiesAgreeSame(a, b); }
    } else {
      var k, i: nat, j: nat :| Top(a, k, i) && Top(a, k, j) && a[i][k] != a[j][k];
      NoWinner(a, k);
      var b := TieSwapped(a, k, if ByPriority(a)[k] != a[i][k] then i else j);
    }
  }

  /** No two sources give a key the same priority. */
  ghost predicate DistinctPriorities(sources: seq<Data>) {
    forall k, i, j :: 0 <= i < j < |sources| && k in sources[i] && k in sources[j] ==>
      sources[i][k].priority != sources[j][k].priority
  }

  /** Distinct priorities leave no ties at all. */
  lemma {:induction false} DistinctIsEnough(a: seq<Data>, b: seq<Data>)
    requires multiset(b) == multiset(a) && DistinctPriorities(a)
    ensures ByPriority(b) == ByPriority(a)
  {
    forall k, i: nat, j: nat | Top(a, k, i) && Top(a, k, j) ensures a[i][k] == a[j][k] {
      assert a[i][k].priority == a[j][k].priority;
    }
    ArrivalOrderIrrelevant(a);
  }

  lemma TwoSources(a: Data, b: Data)
    ensures ByPriority([a, b]) == Stronger(a, b)
  {
    assert [a, b][..1] == [a] && [a][..0] == [];
    assert ByPriority([a]) == Stronger(ByPriority([]), a);
    StrongerIdentity(a);
  }

  /** It can matter otherwise: two sources, one key, equal priorities, and the first to answer wins. */
  lemma TiesFollowArrival(k: string, v: Value, w: Value)
    requires v.priority == w.priority
    ensures ByPriority([map[k := v], map[k := w]])[k] == v && ByPriority([map[k := w], map[k := v]])[k] == w
  {
    TwoSources(map[k := v], map[k := w]);
    TwoSources(map[k := w], map[k := v]);
  }
}
