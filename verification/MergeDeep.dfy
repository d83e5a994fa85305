/** Deep merge: nest the entries of all sources, merging maps on the way, then flatten the result. */
module MergeDeep {
  import opened Types
  import opened Text
  import opened DottedKeys
  import opened Nesting
  import opened NestedMaps
  import opened Flattening
  import opened Merge

  // ----- the order in which entries are inserted -----

  ghost function Wrap(d: Data): map<string, Any> {
    Tabulate(d.Keys, k requires k in d => Typed(d[k]))
  }

  /** `kvs` goes through the sources one after the other, each in any order of its keys. */
  ghost predicate Visits(kvs: Entries, sources: seq<Data>)
    decreases |sources|
  {
    if sources == [] then kvs == [] else
    var m := |sources| - 1;
    exists n: nat :: n <= |kvs| && Visits(kvs[..n], sources[..m]) && EachOnce(kvs[n..], Wrap(sources[m]))
  }

  /** The nested map after all insertions of insertNested. */
  ghost function MergeAll(kvs: Entries): map<string, Any> {
    if kvs == [] then map[] else
    var n := |kvs| - 1;
    Stored(MergeAll(kvs[..n]), Parts(kvs[n].0), kvs[n].1, true)
  }

  ghost predicate AllTyped(kvs: Entries) {
    forall i :: 0 <= i < |kvs| ==> kvs[i].1.Typed?
  }

  lemma {:induction false} LastWinsAppend(a: Entries, b: Entries)
    ensures LastWins(a + b) == LastWins(a) + LastWins(b)
    decreases |b|
  {
    if b == [] {
      assert a + b == a;
    } else {
      var n := |b| - 1;
      assert (a + b)[..|a + b| - 1] == a + b[..n];
      LastWinsAppend(a, b[..n]);
    }
  }

  lemma EnumeratedIsLastWins(kvs: Entries, f: map<string, Any>)
    requires EachOnce(kvs, f)
    ensures LastWins(kvs) == f
  {
    EnumeratedLastWins(kvs, f);
    assert KeysOf(kvs) == f.Keys;
  }

  lemma WrapPlus(a: Data, b: Data)
    ensures Wrap(a) + Wrap(b) == Wrap(a + b)
  {
  }

  lemma {:induction false} VisitedLastWins(kvs: Entries, sources: seq<Data>)
    requires Visits(kvs, sources)
    ensures AllTyped(kvs) && LastWins(kvs) == Wrap(ByLast(sources))
    decreases |sources|
  {
    hide Wrap, LastWins, EachOnce, AllTyped;
    if sources == [] {
      EmptyEnumerated();
    } else {
      var m := |sources| - 1;
      var n: nat :| n <= |kvs| && Visits(kvs[..n], sources[..m]) && EachOnce(kvs[n..], Wrap(sources[m]));
      VisitedLastWins(kvs[..n], sources[..m]);
      EnumeratedIsLastWins(kvs[n..], Wrap(sources[m]));
      WrapTyped(sources[m], kvs[n..]);
      assert kvs[..n] + kvs[n..] == kvs;
      LastWinsAppend(kvs[..n], kvs[n..]);
      TypedAppend(kvs[..n], kvs[n..]);
      WrapPlus(ByLast(sources[..m]), sources[m]);
    }
  }

  lemma EmptyEnumerated()
    ensures AllTyped([]) && LastWins([]) == Wrap(map[])
  {
  }

  lemma WrapTyped(d: Data, kvs: Entries)
    requires EachOnce(kvs, Wrap(d))
    ensures AllTyped(kvs)
  {
  }

  lemma TypedAppend(a: Entries, b: Entries)
    requires AllTyped(a) && AllTyped(b)
    ensures AllTyped(a + b)
  {
  }

  // ----- coherent keys: nothing is ever merged -----

  lemma {:induction false} MergeAllNests(kvs: Entries)
    requires AllTyped(kvs) && Coherent(KeysOf(kvs))
    ensures MergeAll(kvs) == NestAll(kvs)
    decreases |kvs|
  {
    if kvs != [] {
      var n := |kvs| - 1;
      assert KeysOf(kvs) == KeysOf(kvs[..n]) + {kvs[n].0};
      MergeAllNests(kvs[..n]);
      NoMapAtKey(kvs[..n], kvs[n].0);
    }
  }

  // ----- other keys: some key is missing from the result -----

  /** What can be merged by copying: the entries are not maps themselves, and an entry that is a
      configuration value has a key that a path can have. */
  predicate Mergeable(v: Any) {
    HoldsMap(v) ==> Shallow(v.v.raw.m) && forall k :: k in v.v.raw.m && v.v.raw.m[k].Typed? ==> k != "" && '.' !in k
  }

  ghost predicate AllMergeable(kvs: Entries) {
    forall i :: 0 <= i < |kvs| ==> Mergeable(kvs[i].1)
  }

  /** The entry is a map that was merged in front of the path's last part. */
  ghost predicate MergedBy(f: map<string, Any>, k: string, p: Path) {
    k in f && HoldsMap(f[k]) && Parts(k) != [] && p != [] && Parts(k) == p[..|p| - 1]
  }

  ghost predicate Merged(f: map<string, Any>, p: Path) {
    exists k :: MergedBy(f, k, p)
  }

  /** Empty or dotted parts only come from merged maps, at the end of a path. */
  ghost predicate Witnessed(m: map<string, Any>, f: map<string, Any>) {
    forall p :: At(m, p).Some? && !GoodPath(p) ==> !At(m, p).value.Typed? && Merged(f, p)
  }

  /** Storing at a path keeps the witnesses of what it leaves. */
  lemma PutKeepsWitness(m: map<string, Any>, f: map<string, Any>, k: string, v: Any, p: Path)
    requires Witnessed(m, f) && !v.Map?
    requires var t := Put(m, Parts(k), v); At(t, p).Some? && !GoodPath(p)
    ensures var t := Put(m, Parts(k), v); !At(t, p).value.Typed? && Merged(f[k := v], p)
  {
    hide At, Put, Parts, GoodPath;
    PartsGood(k);
    if Parts(k) == [] {
      StoredNothing(m, v, false);
      var x :| MergedBy(f, x, p);
      assert MergedBy(f[k := v], x, p);
    } else {
      AtPut(m, Parts(k), v, p);
      assert p != Parts(k) && !Clash(Parts(k), p);
      var x :| MergedBy(f, x, p);
      assert x != k by { assert p[..|p| - 1] <= p; }
      assert MergedBy(f[k := v], x, p);
    }
  }

  lemma MergeKeepsWitness(m: map<string, Any>, f: map<string, Any>, k: string, v: Any, p: Path)
    requires Witnessed(m, f) && HoldsMap(v) && Mergeable(v) && MapAt(m, Parts(k))
    requires var t := MergeAt(m, Parts(k), v.v.raw.m); At(t, p).Some? && !GoodPath(p)
    ensures var t := MergeAt(m, Parts(k), v.v.raw.m); !At(t, p).value.Typed? && Merged(f[k := v], p)
  {
    hide At, MergeAt, Parts, MapAt;
    var q, n := Parts(k), v.v.raw.m;
    PartsGood(k);
    AtMerge(m, q, n, p);
    assert q != [] by { MapAtPath(m, q); }
    if q < p && p[|q|] in n {
      assert p[..|q|] == q && p == q + [p[|q|]];
      assert MergedBy(f[k := v], k, p);
    } else {
      var x :| MergedBy(f, x, p);
      assert MergedBy(f[k := v], x, p);
    }
  }

  lemma MapAtPath(m: map<string, Any>, p: Path)
    requires MapAt(m, p)
    ensures p != []
  {
  }

  lemma StoredKeepsWitness(m: map<string, Any>, f: map<string, Any>, k: string, v: Any)
    requires Witnessed(m, f) && Mergeable(v) && !v.Map?
    ensures Witnessed(Stored(m, Parts(k), v, true), f[k := v])
  {
    hide At, Put, MergeAt, MapAt, Parts, GoodPath, Merged, Mergeable;
    var t := Stored(m, Parts(k), v, true);
    forall p | At(t, p).Some? && !GoodPath(p) ensures !At(t, p).value.Typed? && Merged(f[k := v], p) {
      if HoldsMap(v) && MapAt(m, Parts(k)) {
        MergeKeepsWitness(m, f, k, v, p);
      } else {
        PutKeepsWitness(m, f, k, v, p);
      }
    }
  }

  lemma NothingWitnessed(f: map<string, Any>)
    ensures Witnessed(map[], f)
  {
  }

  lemma {:induction false} MergeAllWitnessed(kvs: Entries)
    requires AllTyped(kvs) && AllMergeable(kvs)
    ensures Witnessed(MergeAll(kvs), LastWins(kvs))
    decreases |kvs|
  {
    hide Witnessed, Mergeable, Stored;
    if kvs == [] {
      NothingWitnessed(LastWins(kvs));
    } else {
      var n := |kvs| - 1;
      MergeAllWitnessed(kvs[..n]);
      StoredKeepsWitness(MergeAll(kvs[..n]), LastWins(kvs[..n]), kvs[n].0, kvs[n].1);
    }
  }

  /** A value that holds a map can only come back from the place its own key stands for. */
  lemma MapReturns(format: Any -> string, m: map<string, Any>, d: Data, flat: map<string, Any>, k: string)
    requires Witnessed(m, Wrap(d)) && Flattened(m, "", map[], flat) && ValuesOf(format, flat, d)
    requires k in d && d[k].raw.Map?
    ensures At(m, Parts(k)).Some?
  {
    hide At, KeyFrom, Parts, Merged;
    assert !Given(m, "", k) ==> Get(flat, k) == Get(map[], k);
    var q: Path :| At(m, q) == Some(flat[k]) && KeyFrom("", q) == k;
    LeafIsNoMap(m, q);
    assert flat[k].Typed? && GoodPath(q);
    GoodPathKey(q, k);
    GoodPartsSplit(q, k);
  }

  /** But that is where a merged map is. */
  lemma MergedIsLost(format: Any -> string, m: map<string, Any>, d: Data, flat: map<string, Any>, p: Path)
    requires Witnessed(m, Wrap(d)) && Flattened(m, "", map[], flat) && ValuesOf(format, flat, d)
    requires At(m, p).Some?
    ensures !Merged(Wrap(d), p)
  {
    hide At, Parts, Flattened, Witnessed, ValuesOf;
    forall k ensures !MergedBy(Wrap(d), k, p) {
      if k in d && d[k].raw.Map? {
        MapReturns(format, m, d, flat, k);
        if Clash(Parts(k), p) { LeavesPrefixFree(m, Parts(k), p); }
        assert p != [] ==> p[..|p| - 1] <= p && p[..|p| - 1] != p;
      }
    }
  }

  lemma LeafIsNoMap(m: map<string, Any>, p: Path)
    ensures At(m, p).Some? ==> !At(m, p).value.Map?
  {
  }

  lemma GoodPartsSplit(p: Path, k: string)
    requires GoodPath(p) && p == Split(k, '.')
    ensures Parts(k) == p
  {
    NonEmptyGood(p);
  }

  lemma NoWitnessGood(m: map<string, Any>, f: map<string, Any>)
    requires Witnessed(m, f) && forall p :: At(m, p).Some? ==> !Merged(f, p)
    ensures GoodLeaves(m)
  {
    hide At, GoodPath, Merged;
  }

  /** Every value of every source is mergeable. */
  ghost predicate MergeableSources(sources: seq<Data>) {
    forall i, k :: 0 <= i < |sources| && k in sources[i] ==> Mergeable(Typed(sources[i][k]))
  }

  lemma {:induction false} VisitedMergeable(kvs: Entries, sources: seq<Data>)
    requires Visits(kvs, sources) && MergeableSources(sources)
    ensures AllMergeable(kvs)
    decreases |sources|
  {
    hide Mergeable;
    if sources != [] {
      var m := |sources| - 1;
      var n: nat :| n <= |kvs| && Visits(kvs[..n], sources[..m]) && EachOnce(kvs[n..], Wrap(sources[m]));
      VisitedMergeable(kvs[..n], sources[..m]);
      forall i | 0 <= i < |kvs| ensures Mergeable(kvs[i].1) {
        if i < n {
          assert kvs[..n][i] == kvs[i];
        } else {
          assert kvs[n..][i - n] == kvs[i];
          assert kvs[i].0 in sources[m] && kvs[i].1 == Typed(sources[m][kvs[i].0]);
        }
      }
    }
  }

  /** What flattenValues makes of the nested and merged entries is the last-wins merge exactly when
      the keys are coherent. */
  lemma DeepExact(format: Any -> string, kvs: Entries, sources: seq<Data>, result: Data)
    requires Visits(kvs, sources) && ValuesFlattened(format, MergeAll(kvs), "", result)
    requires MergeableSources(sources) || Coherent(ByLast(sources).Keys)
    ensures result == ByLast(sources) <==> Coherent(ByLast(sources).Keys)
  {
    hide MergeAll, NestAll, Coherent, Flattened, Visits, Merged, Witnessed, At, IsFlat, GoodLeaves, AllMergeable,
         MergeableSources;
    var d, flat := ByLast(sources), FlatOf(format, MergeAll(kvs), "", result);
    VisitedLastWins(kvs, sources);
    assert KeysOf(kvs) == Wrap(d).Keys == d.Keys;
    if Coherent(d.Keys) {
      MergeAllNests(kvs);
      NestAllShape(kvs);
      WellKeyedLeaves(NestAll(kvs));
      FlattenedIsFlat(NestAll(kvs), flat);
      NestThenFlatten(kvs);
      SameFlat(NestAll(kvs), flat, Wrap(d));
      SameValues(format, flat, d, result);
    } else if result == d {
      VisitedMergeable(kvs, sources);
      MergeAllWitnessed(kvs);
      forall p | At(MergeAll(kvs), p).Some? ensures !Merged(Wrap(d), p) {
        MergedIsLost(format, MergeAll(kvs), d, flat, p);
      }
      NoWitnessGood(MergeAll(kvs), Wrap(d));
      FlattenedIsFlat(MergeAll(kvs), flat);
      FlatKeysCoherent(MergeAll(kvs), flat);
    }
  }

  lemma SameFlat(m: map<string, Any>, f: map<string, Any>, g: map<string, Any>)
    requires IsFlat(m, f) && IsFlat(m, g)
    ensures f == g
  {
    forall s ensures Get(f, s) == Get(g, s) { assert Look(m, s) == Get(f, s); }
    forall s | s in f ensures s in g && f[s] == g[s] { assert Get(f, s) == Get(g, s); }
    forall s | s in g ensures s in f { assert Get(f, s) == Get(g, s); }
  }

  lemma SameValues(format: Any -> string, flat: map<string, Any>, d: Data, result: Data)
    requires flat == Wrap(d) && ValuesOf(format, flat, result)
    ensures result == d
  {
  }

  // ----- maps that are merged -----

  /** Two sources, one giving `a.b` and one giving `a` as a map: its entries join the others. */
  lemma MergedTogether(x: Value, y: Value)
    requires y.raw.Map? && Shallow(y.raw.m)
    ensures MergeAll([("a.b", Typed(x)), ("a", Typed(y))]) == map["a" := Map(map["b" := Typed(x)] + y.raw.m)]
  {
    AfterFirst(x);
    KeyParts();
    hide Parts, MergeAll;
    MergeSnoc([("a.b", Typed(x))], "a", Typed(y));
    assert [("a.b", Typed(x))] + [("a", Typed(y))] == [("a.b", Typed(x)), ("a", Typed(y))];
    MergeOne("a", map["b" := Typed(x)], Typed(y));
  }

  lemma MergeOne(k: string, m: map<string, Any>, v: Any)
    requires HoldsMap(v)
    ensures Stored(map[k := Map(m)], [k], v, true) == map[k := Map(m + v.v.raw.m)]
  {
  }

  lemma KeyParts()
    ensures Parts("a.b") == ["a", "b"] && Parts("a.") == ["a"] == Parts("a") && !Normalised("a.")
  {
    hide Parts, Normalised;
    TwoParts("a", "b");
    TwoParts("a", "");
    assert "a" + "." + "b" == "a.b" && "a" + "." + "" == "a.";
    PartsWithoutDot("a");
  }

  lemma TwoParts(x: string, y: string)
    requires x != "" && '.' !in x && '.' !in y
    ensures Parts(x + "." + y) == if y == "" then [x] else [x, y]
    ensures y == "" ==> !Normalised(x + "." + y)
  {
    SplitFirst(x, '.', y);
    SplitNone(y, '.');
    hide Split;
    assert x + ['.'] + y == x + "." + y && Split(x + "." + y, '.') == [x, y];
    assert [x, y][1..] == [y] && [y][1..] == [];
    assert NonEmpty([]) == [] && NonEmpty([y]) == if y == "" then [] else [y];
    assert NonEmpty([x, y]) == [x] + NonEmpty([y]);
    assert [x] + [y] == [x, y] && [x] + [] == [x];
    if y == "" { assert Split(x + "." + y, '.')[1] == ""; }
  }

  lemma AfterFirst(x: Value)
    ensures MergeAll([("a.b", Typed(x))]) == map["a" := Map(map["b" := Typed(x)])]
  {
    KeyParts();
    hide Parts;
    MergeSnoc([], "a.b", Typed(x));
    assert [] + [("a.b", Typed(x))] == [("a.b", Typed(x))];
    assert ["a", "b"][1..] == ["b"];
    assert Put(map[], ["a", "b"], Typed(x)) == map["a" := Map(Put(map[], ["b"], Typed(x)))];
  }

  /** Entries that are configuration values under keys no path has are another matter: `w` is an
      empty map, and a map holding `w` under the empty key is merged before `w` itself is. The result
      is the last-wins merge although the key `a.` is not normalised. */
  lemma IllKeyedValueSurvives(format: Any -> string, x: Value, w: Value, big: Value, result: Data)
    requires w.raw == Map(map[]) && big.raw == Map(map["" := Typed(w)])
    requires ValuesFlattened(format, MergeAll(IllKeyed(x, w, big)), "", result)
    ensures var sources := [map["a.b" := x], map["a." := big], map["a." := w]];
            && Visits(IllKeyed(x, w, big), sources)
            && result == ByLast(sources) && !Coherent(ByLast(sources).Keys)
  {
    hide MergeAll, Visits, Coherent, Parts, Normalised, Flattened, ByLast;
    var flat := FlatOf(format, MergeAll(IllKeyed(x, w, big)), "", result);
    IllKeyedLast(x, w, big);
    IllKeyedVisits(x, w, big);
    IllKeyedTree(x, w, big);
    IllKeyedFlat(Typed(x), Typed(w), flat);
    KeyParts();
    NotCoherent(map["a.b" := x, "a." := w].Keys, "a.");
  }

  lemma IllKeyedLast(x: Value, w: Value, big: Value)
    ensures ByLast([map["a.b" := x], map["a." := big], map["a." := w]]) == map["a.b" := x, "a." := w]
  {
    var sources := [map["a.b" := x], map["a." := big], map["a." := w]];
    var a, b: Data := map["a.b" := x], map["a." := big];
    assert sources[..2] == [a, b] && [a, b][..1] == [a] && [a][..0] == [];
    assert ByLast([a]) == map[] + a == a;
    assert ByLast([a, b]) == a + b == map["a.b" := x, "a." := big];
    assert ByLast(sources) == ByLast([a, b]) + map["a." := w];
  }

  lemma NotCoherent(keys: set<string>, k: string)
    requires k in keys && !Normalised(k)
    ensures !Coherent(keys)
  {
  }

  function IllKeyed(x: Value, w: Value, big: Value): Entries {
    [("a.b", Typed(x))] + [("a.", Typed(big))] + [("a.", Typed(w))]
  }

  lemma IllKeyedTree(x: Value, w: Value, big: Value)
    requires w.raw == Map(map[]) && big.raw == Map(map["" := Typed(w)])
    ensures MergeAll(IllKeyed(x, w, big)) == map["a" := Map(map["b" := Typed(x), "" := Typed(w)])]
  {
    AfterFirst(x);
    KeyParts();
    hide Parts, MergeAll;
    MergeSnoc([("a.b", Typed(x))], "a.", Typed(big));
    MergeSnoc([("a.b", Typed(x))] + [("a.", Typed(big))], "a.", Typed(w));
    var m := map["b" := Typed(x)];
    MergeOne("a", m, Typed(big));
    assert m + map["" := Typed(w)] == map["b" := Typed(x), "" := Typed(w)];
    MergeOne("a", map["b" := Typed(x), "" := Typed(w)], Typed(w));
    assert map["b" := Typed(x), "" := Typed(w)] + map[] == map["b" := Typed(x), "" := Typed(w)];
  }

  lemma IllKeyedVisits(x: Value, w: Value, big: Value)
    ensures Visits(IllKeyed(x, w, big), [map["a.b" := x], map["a." := big], map["a." := w]])
  {
    var sources := [map["a.b" := x], map["a." := big], map["a." := w]];
    OneEnumerated("a.b", x);
    OneEnumerated("a.", big);
    OneEnumerated("a.", w);
    assert sources[..0] == [] && sources[..3] == sources && [] + [("a.b", Typed(x))] == [("a.b", Typed(x))];
    assert Visits([], sources[..0]);
    hide Visits, EachOnce, Wrap;
    VisitsSnoc([], [("a.b", Typed(x))], sources, 0);
    VisitsSnoc([("a.b", Typed(x))], [("a.", Typed(big))], sources, 1);
    VisitsSnoc([("a.b", Typed(x))] + [("a.", Typed(big))], [("a.", Typed(w))], sources, 2);
  }

  lemma OneEnumerated(k: string, v: Value)
    ensures EachOnce([(k, Typed(v))], Wrap(map[k := v]))
  {
    assert [(k, Typed(v))][0].0 == k;
  }

  lemma IllKeyedFlat(x: Any, w: Any, flat: map<string, Any>)
    requires !x.Map? && !w.Map?
    requires Flattened(map["a" := Map(map["b" := x, "" := w])], "", map[], flat)
    ensures flat == map["a.b" := x, "a." := w]
  {
    var t := map["a" := Map(map["b" := x, "" := w])];
    TwoPaths(x, w);
    forall s, a ensures Gives(t, "", s, a) <==> (s == "a.b" && a == x) || (s == "a." && a == w) {
      if s == "a.b" && a == x { assert At(t, ["a", "b"]) == Some(a) && KeyFrom("", ["a", "b"]) == s; }
      if s == "a." && a == w { assert At(t, ["a", ""]) == Some(a) && KeyFrom("", ["a", ""]) == s; }
    }
    assert Gives(t, "", "a.b", x) && Gives(t, "", "a.", w);
    forall s ensures Get(flat, s) == Get(map["a.b" := x, "a." := w], s) {
      if s != "a.b" && s != "a." { assert !Given(t, "", s); }
    }
    forall s | s in flat ensures s == "a.b" || s == "a." { assert Get(flat, s).Some?; }
  }

  lemma TwoPaths(x: Any, w: Any)
    requires !x.Map? && !w.Map?
    ensures var t := map["a" := Map(map["b" := x, "" := w])];
            && (forall p :: At(t, p).Some? ==> p == ["a", "b"] || p == ["a", ""])
            && At(t, ["a", "b"]) == Some(x) && At(t, ["a", ""]) == Some(w)
            && KeyFrom("", ["a", "b"]) == "a.b" && KeyFrom("", ["a", ""]) == "a."
  {
    var t := map["a" := Map(map["b" := x, "" := w])];
    forall p | At(t, p).Some? ensures p == ["a", "b"] || p == ["a", ""] {
      var q := p[1..];
      assert p[0] == "a" && |p| > 1 && At(t, p) == At(map["b" := x, "" := w], q);
      assert |q| == 1 && p == ["a"] + q && (q == ["b"] || q == [""]);
    }
    assert ["a", "b"][1..] == ["b"] && ["a", ""][1..] == [""] && ["b"][1..] == [] && [""][1..] == [];
    assert KeyFrom("", ["a", "b"]) == KeyFrom("a", ["b"]) == KeyFrom("a.b", []);
    assert KeyFrom("", ["a", ""]) == KeyFrom("a", [""]) == KeyFrom("a.", []);
  }

  // ----- the method -----

  lemma MergeSnoc(kvs: Entries, k: string, v: Any)
    ensures MergeAll(kvs + [(k, v)]) == Stored(MergeAll(kvs), Parts(k), v, true)
  {
    hide Stored;
    assert (kvs + [(k, v)])[..|kvs|] == kvs;
  }

  /** The entries of one source whose keys are not still to do. */
  ghost predicate Inserted(e: Entries, source: Data, todo: set<string>) {
    EachOnce(e, Wrap(source) - todo)
  }

  lemma InsertedEnds(source: Data)
    ensures Inserted([], source, source.Keys)
    ensures forall e :: Inserted(e, source, {}) ==> EachOnce(e, Wrap(source))
  {
    assert Wrap(source) - source.Keys == map[] && Wrap(source) - {} == Wrap(source);
  }

  lemma InsertedStep(e: Entries, source: Data, todo: set<string>, k: string)
    requires Inserted(e, source, todo) && k in todo && k in source
    ensures Inserted(e + [(k, Typed(source[k]))], source, todo - {k})
  {
    EnumerateSnoc(e, Wrap(source), todo, k);
  }

  /** A map that is to be merged holds no maps, unless nothing is ever merged. */
  ghost predicate Copyable(source: Data, keys: set<string>) {
    (forall k :: k in source && source[k].raw.Map? ==> Shallow(source[k].raw.m)) || Coherent(keys)
  }

  /** The entries inserted so far, of keys among those of all sources. */
  ghost predicate Among(kvs: Entries, keys: set<string>) {
    AllTyped(kvs) && KeysOf(kvs) <= keys
  }

  lemma AmongSnoc(kvs: Entries, keys: set<string>, k: string, v: Value)
    requires Among(kvs, keys) && k in keys
    ensures Among(kvs + [(k, Typed(v))], keys)
  {
  }

  lemma InsertFits(kvs: Entries, source: Data, k: string, keys: set<string>)
    requires Among(kvs, keys) && Copyable(source, keys) && k in source && k in keys
    ensures HoldsMap(Typed(source[k])) && MapAt(MergeAll(kvs), Parts(k)) ==> Shallow(source[k].raw.m)
  {
    if Coherent(keys) {
      MergeAllNests(kvs);
      NoMapAtKey(kvs, k);
    }
  }

  /** One source of mergeDeep, its keys in any order; `keys` are those of all sources. */
  method InsertAll(n: Nested, source: Data, ghost kvs0: Entries, ghost keys: set<string>) returns (ghost e: Entries)
    requires n.Valid() && n.Tree() == MergeAll(kvs0)
    requires Among(kvs0, keys) && source.Keys <= keys && Copyable(source, keys)
    modifies n, Maps(n.c)
    ensures n.Valid() && n.Tree() == MergeAll(kvs0 + e)
    ensures Among(kvs0 + e, keys) && EachOnce(e, Wrap(source))
    ensures fresh(Maps(n.c) - old(Maps(n.c)))
  {
    hide MergeAll, Stored, Parts, MapAt, HoldsMap, Shallow, Coherent, Nested.Valid, Nested.Tree, Inserted, Among,
         Copyable, EachOnce;
    e := [];
    assert kvs0 + e == kvs0;
    InsertedEnds(source);
    var todo := source.Keys;
    while todo != {}
      invariant n.Valid() && n.Tree() == MergeAll(kvs0 + e)
      invariant todo <= source.Keys && Inserted(e, source, todo) && Among(kvs0 + e, keys)
      invariant fresh(Maps(n.c) - old(Maps(n.c)))
      decreases |todo|
    {
      var k :| k in todo;
      InsertFits(kvs0 + e, source, k, keys);
      MergeSnoc(kvs0 + e, k, Typed(source[k]));
      AmongSnoc(kvs0 + e, keys, k, source[k]);
      InsertedStep(e, source, todo, k);
      n.Insert(k, Typed(source[k]), true);
      Associative(kvs0, e, [(k, Typed(source[k]))]);
      e, todo := e + [(k, Typed(source[k]))], todo - {k};
    }
  }

  lemma {:induction false} ByLastGrows(sources: seq<Data>, i: nat)
    requires i < |sources|
    ensures sources[i].Keys <= ByLast(sources).Keys
    decreases |sources|
  {
    var n := |sources| - 1;
    if i < n { ByLastGrows(sources[..n], i); }
  }

  lemma VisitsSnoc(kvs: Entries, e: Entries, sources: seq<Data>, i: nat)
    requires i < |sources| && Visits(kvs, sources[..i]) && EachOnce(e, Wrap(sources[i]))
    ensures Visits(kvs + e, sources[..i + 1])
  {
    hide EachOnce;
    assert sources[..i + 1][..i] == sources[..i];
    assert (kvs + e)[..|kvs|] == kvs && (kvs + e)[|kvs|..] == e;
  }

  /** Deep merge of two or more sources flattens what inserting all their entries nests; with fewer
      it is the source itself. It equals the last-wins merge exactly when the keys are normalised and
      none extends another, whatever maps the values hold if they are, and for mergeable ones if not. */
  method MergeDeep(format: Any -> string, sources: seq<Data>)
    returns (result: Data, ghost kvs: Entries)
    requires forall i :: 0 <= i < |sources| ==> Copyable(sources[i], ByLast(sources).Keys)
    ensures |sources| < 2 ==> result == ByLast(sources)
    ensures |sources| >= 2 ==>
              Visits(kvs, sources) && ValuesFlattened(format, MergeAll(kvs), "", result)
    ensures |sources| >= 2 && (MergeableSources(sources) || Coherent(ByLast(sources).Keys)) ==>
              (result == ByLast(sources) <==> Coherent(ByLast(sources).Keys))
  {
    hide MergeAll, Coherent, Copyable, Visits, Among, Nested.Valid, ValuesFlattened, MergeableSources, EachOnce;
    kvs := [];
    if |sources| == 0 { return map[], kvs; }
    if |sources| == 1 {
      assert sources[..0] == [] && map[] + sources[0] == sources[0];
      return sources[0], kvs;
    }
    ghost var keys := ByLast(sources).Keys;
    var n := new Nested();
    NothingInserted(sources, keys);
    for i := 0 to |sources|
      invariant n.Valid() && fresh(n) && fresh(Maps(n.c)) && n.Tree() == MergeAll(kvs)
      invariant Among(kvs, keys) && Visits(kvs, sources[..i])
    {
      ByLastGrows(sources, i);
      ghost var e := InsertAll(n, sources[i], kvs, keys);
      VisitsSnoc(kvs, e, sources, i);
      kvs := kvs + e;
    }
    assert sources[..|sources|] == sources;
    TreeDenoted(n);
    result := FlattenValues(format, n.root, "", Map(n.Tree()));
    if MergeableSources(sources) || Coherent(keys) { DeepExact(format, kvs, sources, result); }
  }

  lemma NothingInserted(sources: seq<Data>, keys: set<string>)
    ensures MergeAll([]) == map[] && Among([], keys) && Visits([], sources[..0])
  {
  }
}
