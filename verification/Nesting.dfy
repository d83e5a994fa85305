/** Nesting a list of dotted entries and flattening the result are inverse on coherent key sets,
    in whatever order the entries come. */
module Nesting {
  import opened Types
  import opened Text
  import opened DottedKeys

  type Entries = seq<(string, Any)>

  function KeysOf(kvs: Entries): set<string> {
    set i | 0 <= i < |kvs| :: kvs[i].0
  }

  /** No value is itself a map. */
  predicate Flat(kvs: Entries) {
    forall i :: 0 <= i < |kvs| ==> !kvs[i].1.Map?
  }

  /** All keys are normalised and none extends another. */
  ghost predicate Coherent(keys: set<string>) {
    && (forall k :: k in keys ==> Normalised(k))
    && (forall k, l :: k in keys && l in keys && Clash(Split(k, '.'), Split(l, '.')) ==> k == l)
  }

  /** The entries as a flat map, later ones winning. */
  function LastWins(kvs: Entries): (f: map<string, Any>)
    ensures f.Keys == KeysOf(kvs)
  {
    if kvs == [] then map[] else
    var n := |kvs| - 1;
    assert KeysOf(kvs) == KeysOf(kvs[..n]) + {kvs[n].0};
    LastWins(kvs[..n])[kvs[n].0 := kvs[n].1]
  }

  /** buildIndexed, and the nesting half of mergeDeep. */
  function NestAll(kvs: Entries): map<string, Any> {
    if kvs == [] then map[] else
    var n := |kvs| - 1;
    Put(NestAll(kvs[..n]), Parts(kvs[n].0), kvs[n].1)
  }

  /** buildNested of the exporter, which splits at every dot. */
  function BuildAll(kvs: Entries): map<string, Any> {
    if kvs == [] then map[] else
    var n := |kvs| - 1;
    BuildPut(BuildAll(kvs[..n]), Split(kvs[n].0, '.'), kvs[n].1)
  }

  function Get(f: map<string, Any>, s: string): Option<Any> {
    if s in f then Some(f[s]) else None
  }

  function Look(m: map<string, Any>, s: string): Option<Any> {
    At(m, Split(s, '.'))
  }

  /** `f` is the flattening of `m`. */
  ghost predicate IsFlat(m: map<string, Any>, f: map<string, Any>) {
    forall s :: Look(m, s) == Get(f, s)
  }

  lemma SplitInjective(s: string, t: string)
    requires Split(s, '.') == Split(t, '.')
    ensures s == t
  {
    JoinSplit(s);
    JoinSplit(t);
  }

  lemma {:induction false} NestAllShape(kvs: Entries)
    requires Flat(kvs)
    ensures WellKeyed(Map(NestAll(kvs))) && Filled(Map(NestAll(kvs)))
  {
    if kvs != [] {
      var n := |kvs| - 1;
      NestAllShape(kvs[..n]);
      PartsGood(kvs[n].0);
      if Parts(kvs[n].0) != [] {
        PutKeepsShape(Map(NestAll(kvs[..n])), Parts(kvs[n].0), kvs[n].1);
      }
    }
  }

  lemma {:induction false} NestThenLook(kvs: Entries, s: string)
    requires Flat(kvs) && Coherent(KeysOf(kvs))
    ensures Look(NestAll(kvs), s) == Get(LastWins(kvs), s)
    decreases |kvs|
  {
    if kvs != [] {
      var n := |kvs| - 1;
      var k := kvs[n].0;
      assert KeysOf(kvs) == KeysOf(kvs[..n]) + {k};
      NestThenLook(kvs[..n], s);
      NormalisedParts(k);
      AtPut(NestAll(kvs[..n]), Parts(k), kvs[n].1, Split(s, '.'));
      if Split(s, '.') == Split(k, '.') { SplitInjective(s, k); }
    }
  }

  /** On coherent keys no entry lands where a map is. */
  lemma NoMapAtKey(kvs: Entries, key: string)
    requires Flat(kvs) && Coherent(KeysOf(kvs) + {key})
    ensures !MapAt(NestAll(kvs), Parts(key))
  {
    if MapAt(NestAll(kvs), Parts(key)) {
      NestAllShape(kvs);
      NormalisedParts(key);
      var q := LeafBelow(Map(NestAll(kvs)), Parts(key));
      LeafPathsGood(Map(NestAll(kvs)), q);
      SplitJoin(q);
      NestThenLook(kvs, Join(q));
      assert Clash(Split(Join(q), '.'), Split(key, '.'));
    }
  }

  /** Nest, then flatten: on coherent keys nothing is lost, whatever the order of the entries. */
  lemma {:induction false} NestThenFlatten(kvs: Entries)
    requires Flat(kvs) && Coherent(KeysOf(kvs))
    ensures IsFlat(NestAll(kvs), LastWins(kvs))
  {
    forall s ensures Look(NestAll(kvs), s) == Get(LastWins(kvs), s) { NestThenLook(kvs, s); }
  }

  /** Every value lies at the end of non-empty, dot-free keys. */
  ghost predicate GoodLeaves(m: map<string, Any>) {
    forall p :: At(m, p).Some? ==> GoodPath(p)
  }

  lemma WellKeyedLeaves(m: map<string, Any>)
    requires WellKeyed(Map(m))
    ensures GoodLeaves(m)
  {
    forall p | At(m, p).Some? ensures GoodPath(p) { LeafPathsGood(Map(m), p); }
  }

  /** The keys of such a tree's flattening are coherent. */
  lemma FlatKeysCoherent(m: map<string, Any>, f: map<string, Any>)
    requires GoodLeaves(m) && IsFlat(m, f)
    ensures Coherent(f.Keys)
  {
    forall k | k in f.Keys ensures Normalised(k) {
      assert Look(m, k) == Get(f, k);
    }
    forall k, l | k in f.Keys && l in f.Keys && Clash(Split(k, '.'), Split(l, '.')) ensures k == l {
      assert Look(m, k) == Get(f, k) && Look(m, l) == Get(f, l);
      LeavesPrefixFree(m, Split(k, '.'), Split(l, '.'));
      SplitInjective(k, l);
    }
  }

  /** So nesting and flattening gives back the flat map exactly when its keys are coherent. */
  lemma {:induction false} NestFlattenExact(kvs: Entries)
    requires Flat(kvs)
    ensures IsFlat(NestAll(kvs), LastWins(kvs)) <==> Coherent(KeysOf(kvs))
  {
    if Coherent(KeysOf(kvs)) { NestThenFlatten(kvs); }
    if IsFlat(NestAll(kvs), LastWins(kvs)) {
      NestAllShape(kvs);
      WellKeyedLeaves(NestAll(kvs));
      FlatKeysCoherent(NestAll(kvs), LastWins(kvs));
    }
  }

  /** Every value of the nested map lies at or behind the path of some key. */
  lemma {:induction false} LeafBehindKey(kvs: Entries, q: Path) returns (k: string)
    requires At(NestAll(kvs), q).Some?
    ensures k in KeysOf(kvs) && Parts(k) <= q
    decreases |kvs|
  {
    var n := |kvs| - 1;
    var p := Parts(kvs[n].0);
    if p <= q {
      k := kvs[n].0;
    } else {
      PutElsewhere(NestAll(kvs[..n]), p, kvs[n].1, q);
      k := LeafBehindKey(kvs[..n], q);
    }
  }

  /** On coherent keys no value lies before the next key's path. */
  lemma NoneBefore(kvs: Entries, key: string, q: Path)
    requires Coherent(KeysOf(kvs) + {key}) && At(NestAll(kvs), q).Some? && q <= Parts(key)
    ensures q == Parts(key)
  {
    hide At, NestAll, Split, Parts, Normalised;
    var l := LeafBehindKey(kvs, q);
    NormalisedParts(l);
    NormalisedParts(key);
    assert Clash(Split(l, '.'), Split(key, '.'));
  }

  /** The exporter's nester builds the same tree as the other two on coherent keys, whatever the
      values are. */
  lemma {:induction false} NestersAgree(kvs: Entries)
    requires Coherent(KeysOf(kvs))
    ensures BuildAll(kvs) == NestAll(kvs)
    decreases |kvs|
  {
    hide At, Put, BuildPut, Parts, Split, Normalised;
    if kvs != [] {
      var n := |kvs| - 1;
      var k, m := kvs[n].0, NestAll(kvs[..n]);
      assert KeysOf(kvs) == KeysOf(kvs[..n]) + {k};
      NestersAgree(kvs[..n]) by { FewerCoherent(KeysOf(kvs[..n]), k); }
      NormalisedParts(k);
      forall q | At(m, q).Some? && q <= Parts(k) ensures q == Parts(k) { NoneBefore(kvs[..n], k, q); }
      hide Coherent;
      BuildPutIsPut(m, Parts(k), kvs[n].1);
    }
  }

  lemma FewerCoherent(keys: set<string>, k: string)
    requires Coherent(keys + {k})
    ensures Coherent(keys)
  {
  }

  /** `kvs` lists the flat map, each key once or more but always with its value. */
  ghost predicate Enumerates(kvs: Entries, f: map<string, Any>) {
    && (forall i :: 0 <= i < |kvs| ==> kvs[i].0 in f && kvs[i].1 == f[kvs[i].0])
    && (forall k :: k in f ==> k in KeysOf(kvs))
  }

  /** `kvs` lists each entry of the flat map exactly once. */
  ghost predicate EachOnce(kvs: Entries, f: map<string, Any>) {
    Enumerates(kvs, f) && forall i, j :: 0 <= i < j < |kvs| ==> kvs[i].0 != kvs[j].0
  }

  lemma {:induction false} EnumeratedLastWins(kvs: Entries, f: map<string, Any>)
    requires forall i :: 0 <= i < |kvs| ==> kvs[i].0 in f && kvs[i].1 == f[kvs[i].0]
    ensures forall k :: k in LastWins(kvs) ==> k in f && LastWins(kvs)[k] == f[k]
    decreases |kvs|
  {
    if kvs != [] { EnumeratedLastWins(kvs[..|kvs| - 1], f); }
  }

  /** Flatten, then nest: a tree with non-empty dot-free keys and no empty sub-map is rebuilt from
      its flat form by all three nesters, whatever the order. */
  lemma FlattenThenNest(t: map<string, Any>, f: map<string, Any>, kvs: Entries)
    requires WellKeyed(Map(t)) && Filled(Map(t)) && IsFlat(t, f) && Enumerates(kvs, f)
    ensures Coherent(f.Keys) && NestAll(kvs) == t && BuildAll(kvs) == t
  {
    hide WellKeyed, Filled, Normalised, Put, BuildPut, Coherent;
    WellKeyedLeaves(t);
    FlatKeysCoherent(t, f);
    EnumeratedLastWins(kvs, f);
    assert KeysOf(kvs) == f.Keys;
    assert LastWins(kvs) == f;
    forall i | 0 <= i < |kvs| ensures !kvs[i].1.Map? {
      assert Look(t, kvs[i].0) == Get(f, kvs[i].0);
    }
    NestThenFlatten(kvs);
    NestAllShape(kvs);
    SameFlatSameTree(t, NestAll(kvs), f);
    NestersAgree(kvs);
  }

  lemma SameFlatSameTree(t: map<string, Any>, u: map<string, Any>, f: map<string, Any>)
    requires WellKeyed(Map(t)) && Filled(Map(t)) && WellKeyed(Map(u)) && Filled(Map(u))
    requires IsFlat(t, f) && IsFlat(u, f)
    ensures t == u
  {
    forall p ensures At(t, p) == At(u, p) {
      if At(t, p).Some? { LeafPathsGood(Map(t), p); }
      if At(u, p).Some? { LeafPathsGood(Map(u), p); }
      if At(t, p).Some? || At(u, p).Some? {
        SplitJoin(p);
        assert Look(t, Join(p)) == Get(f, Join(p)) == Look(u, Join(p));
      }
    }
    LeavesDetermine(Map(t), Map(u));
  }
}
