/** The two flatteners: `Flatten` of the parser, which fills one shared map, and `flattenValues` of
    the merger, which merges the maps its recursive calls return. */
module Flattening {
  import opened Types
  import opened Text
  import opened GoMaps
  import opened DottedKeys
  import opened Nesting

  function Prefixed(prefix: string, k: string): string {
    if prefix != "" then prefix + "." + k else k
  }

  /** The key that a path ends up under. Paths with empty or dotted parts can share one. */
  function KeyFrom(prefix: string, p: Path): string
    decreases |p|
  {
    if p == [] then prefix else KeyFrom(Prefixed(prefix, p[0]), p[1..])
  }

  /** A path that starts with a part which is not empty ends up under its parts joined by dots, whatever
      they hold; empty parts in front of it are lost. */
  lemma {:induction false} KeyIsJoined(p: Path)
    requires p != []
    ensures p[0] != "" ==> KeyFrom("", p) == Join(p)
    ensures p[0] == "" ==> KeyFrom("", p) == KeyFrom("", p[1..])
    decreases |p|
  {
    if p[0] != "" { KeyAfter(p[0], p[1..]); }
    assert p == [p[0]] + p[1..];
  }

  lemma {:induction false} KeyAfter(prefix: string, p: Path)
    requires prefix != ""
    ensures KeyFrom(prefix, p) == Join([prefix] + p)
    decreases |p|
  {
    if p == [] {
      assert [prefix] + p == [prefix];
    } else {
      KeyAfter(prefix + "." + p[0], p[1..]);
      var rest := p[1..];
      if rest == [] {
        assert p == [p[0]];
        JoinCons(prefix, p);
      } else {
        assert p == [p[0]] + rest;
        JoinCons(prefix, p);
        JoinCons(p[0], rest);
        JoinCons(prefix + "." + p[0], rest);
        Associative(prefix + ".", p[0] + ".", Join(rest));
        Associative(prefix + ".", p[0], ".");
      }
    }
  }

  /** Some path of the map leads to the value `a` and ends up under the key `s`. */
  ghost predicate Gives(m: map<string, Any>, prefix: string, s: string, a: Any) {
    exists p: Path :: At(m, p) == Some(a) && KeyFrom(prefix, p) == s
  }

  ghost predicate Given(m: map<string, Any>, prefix: string, s: string) {
    exists a :: Gives(m, prefix, s, a)
  }

  /** Flattening `m` took `before` to `after`: a key that some path ends up under holds the value of
      such a path, any other key is as it was. */
  ghost predicate Flattened(m: map<string, Any>, prefix: string, before: map<string, Any>, after: map<string, Any>) {
    forall s ::
      if Given(m, prefix, s) then s in after && Gives(m, prefix, s, after[s]) else Get(after, s) == Get(before, s)
  }

  // ----- one more entry -----

  ghost predicate EntryGives(k: string, v: Any, prefix: string, s: string, a: Any) {
    if v.Map? then Gives(v.m, Prefixed(prefix, k), s, a) else s == Prefixed(prefix, k) && a == v
  }

  lemma AtEntry(m: map<string, Any>, todo: set<string>, k: string, p: Path)
    requires k in todo && todo <= m.Keys && p != []
    ensures At(m - (todo - {k}), p) == if p[0] == k then At(map[k := m[k]], p) else At(m - todo, p)
  {
  }

  lemma AtOne(k: string, v: Any, p: Path)
    requires p != [] && p[0] == k
    ensures At(map[k := v], p) == if v.Map? then At(v.m, p[1..]) else if |p| == 1 then Some(v) else None
  {
  }

  /** What the entries visited so far give, and what the next one gives. */
  lemma GivesStep(m: map<string, Any>, todo: set<string>, k: string, prefix: string, s: string, a: Any)
    requires k in todo && todo <= m.Keys
    ensures Gives(m - (todo - {k}), prefix, s, a) <==>
            Gives(m - todo, prefix, s, a) || EntryGives(k, m[k], prefix, s, a)
  {
    hide At;
    var old_, new_ := m - todo, m - (todo - {k});
    forall p: Path | p != [] ensures At(new_, p) == if p[0] == k then At(map[k := m[k]], p) else At(old_, p) {
      AtEntry(m, todo, k, p);
    }
    if Gives(new_, prefix, s, a) {
      var p: Path :| At(new_, p) == Some(a) && KeyFrom(prefix, p) == s;
      PathNotEmpty(new_, p);
      if p[0] == k {
        AtOne(k, m[k], p);
        assert KeyFrom(Prefixed(prefix, k), p[1..]) == s;
        if m[k].Map? { assert At(m[k].m, p[1..]) == Some(a); } else { assert p[1..] == []; }
      } else {
        assert At(old_, p) == Some(a);
      }
    }
    if Gives(old_, prefix, s, a) {
      var p: Path :| At(old_, p) == Some(a) && KeyFrom(prefix, p) == s;
      PathNotEmpty(old_, p);
      if p[0] == k { NotVisited(m, todo, k, p); }
      assert At(new_, p) == Some(a);
    }
    if EntryGives(k, m[k], prefix, s, a) {
      EntryPath(m, todo, k, prefix, s, a);
    }
  }

  lemma PathNotEmpty(m: map<string, Any>, p: Path)
    requires At(m, p).Some?
    ensures p != []
  {
  }

  lemma NotVisited(m: map<string, Any>, todo: set<string>, k: string, p: Path)
    requires k in todo && p != [] && p[0] == k
    ensures At(m - todo, p) == None
  {
  }

  lemma EntryPath(m: map<string, Any>, todo: set<string>, k: string, prefix: string, s: string, a: Any)
    requires k in todo && todo <= m.Keys && EntryGives(k, m[k], prefix, s, a)
    ensures Gives(m - (todo - {k}), prefix, s, a)
  {
    hide At;
    var q: Path := [];
    if m[k].Map? { q :| At(m[k].m, q) == Some(a) && KeyFrom(Prefixed(prefix, k), q) == s; }
    var p := [k] + q;
    assert p[1..] == q;
    AtEntry(m, todo, k, p);
    AtOne(k, m[k], p);
    assert At(m - (todo - {k}), p) == Some(a) && KeyFrom(prefix, p) == s;
  }

  lemma GivenStep(m: map<string, Any>, todo: set<string>, k: string, prefix: string, s: string)
    requires k in todo && todo <= m.Keys
    ensures Given(m - (todo - {k}), prefix, s) <==>
            Given(m - todo, prefix, s) ||
            if m[k].Map? then Given(m[k].m, Prefixed(prefix, k), s) else s == Prefixed(prefix, k)
  {
    hide Gives;
    forall a
      ensures Gives(m - (todo - {k}), prefix, s, a) <==>
              Gives(m - todo, prefix, s, a) || EntryGives(k, m[k], prefix, s, a)
    {
      GivesStep(m, todo, k, prefix, s, a);
    }
    if Given(m - todo, prefix, s) {
      var a :| Gives(m - todo, prefix, s, a);
      assert Gives(m - (todo - {k}), prefix, s, a);
    } else if m[k].Map? && Given(m[k].m, Prefixed(prefix, k), s) {
      var a :| Gives(m[k].m, Prefixed(prefix, k), s, a);
      assert EntryGives(k, m[k], prefix, s, a);
      assert Gives(m - (todo - {k}), prefix, s, a);
    } else if !m[k].Map? && s == Prefixed(prefix, k) {
      assert EntryGives(k, m[k], prefix, s, m[k]);
      assert Gives(m - (todo - {k}), prefix, s, m[k]);
    }
  }

  lemma FlattenedStep(m: map<string, Any>, todo: set<string>, k: string, prefix: string,
                      start: map<string, Any>, before: map<string, Any>, after: map<string, Any>)
    requires k in todo && todo <= m.Keys && Flattened(m - todo, prefix, start, before)
    requires if m[k].Map? then Flattened(m[k].m, Prefixed(prefix, k), before, after)
             else after == before[Prefixed(prefix, k) := m[k]]
    ensures Flattened(m - (todo - {k}), prefix, start, after)
  {
    hide Gives, Given;
    var new_ := m - (todo - {k});
    forall s
      ensures if Given(new_, prefix, s) then s in after && Gives(new_, prefix, s, after[s])
              else Get(after, s) == Get(start, s)
    {
      GivenStep(m, todo, k, prefix, s);
      if s in after { GivesStep(m, todo, k, prefix, s, after[s]); }
    }
  }

  lemma NothingGiven(prefix: string, before: map<string, Any>)
    ensures Flattened(map[], prefix, before, before)
  {
  }

  // ----- on well-keyed trees the order does not show -----

  lemma {:induction false} KeyFromJoin(pfx: Path, p: Path)
    requires pfx == [] || GoodPath(pfx)
    requires p == [] || GoodPath(p)
    ensures KeyFrom(Join(pfx), p) == Join(pfx + p)
    decreases |p|
  {
    if p == [] {
      assert pfx + p == pfx;
    } else {
      JoinSnoc(pfx, p[0]);
      assert pfx != [] ==> Join(pfx) != "";
      assert Join(pfx + [p[0]]) == Prefixed(Join(pfx), p[0]);
      assert pfx + p == pfx + [p[0]] + p[1..];
      KeyFromJoin(pfx + [p[0]], p[1..]);
    }
  }

  /** A path of non-empty, dot-free parts ends up under its dotted key, and no other such path does. */
  lemma GoodPathKey(p: Path, s: string)
    requires GoodPath(p)
    ensures KeyFrom("", p) == s <==> p == Split(s, '.')
  {
    hide Join, Split, KeyFrom;
    KeyFromJoin([], p);
    assert [] + p == p && Join([]) == "" by { JoinNothing(); }
    SplitJoin(p);
    JoinSplit(s);
  }

  lemma JoinNothing()
    ensures Join([]) == ""
  {
  }

  lemma FlattenedIsFlat(m: map<string, Any>, f: map<string, Any>)
    requires GoodLeaves(m) && Flattened(m, "", map[], f)
    ensures IsFlat(m, f)
  {
    hide Split, At, KeyFrom, GoodPath;
    forall s ensures Look(m, s) == Get(f, s) {
      forall a ensures Gives(m, "", s, a) <==> Look(m, s) == Some(a) {
        forall p: Path | At(m, p).Some? ensures KeyFrom("", p) == s <==> p == Split(s, '.') {
          GoodPathKey(p, s);
        }
        if Look(m, s) == Some(a) { assert KeyFrom("", Split(s, '.')) == s; }
      }
      if Look(m, s).Some? { assert Gives(m, "", s, Look(m, s).value); }
    }
  }

  // ----- confparser.Flatten -----

  class Table {
    var m: map<string, Any>

    constructor ()
      ensures m == map[]
    {
      m := map[];
    }
  }

  method FlattenRecursive(t: Any, prefix: string, result: Table)
    requires t.Map?
    modifies result
    ensures Flattened(t.m, prefix, old(result.m), result.m)
    decreases t
  {
    hide Flattened;
    var todo := t.m.Keys;
    assert t.m - todo == map[];
    NothingGiven(prefix, result.m);
    while todo != {}
      invariant todo <= t.m.Keys && Flattened(t.m - todo, prefix, old(result.m), result.m)
      decreases |todo|
    {
      var k :| k in todo;
      var key := Prefixed(prefix, k);
      ghost var before := result.m;
      if t.m[k].Map? {
        FlattenRecursive(t.m[k], key, result);
      } else {
        result.m := result.m[key := t.m[k]];
      }
      FlattenedStep(t.m, todo, k, prefix, old(result.m), before, result.m);
      todo := todo - {k};
    }
    assert t.m - todo == t.m;
  }

  /** Each key of the result is one that a path ends up under, with the value of such a path, and no
      such key is missing. Without empty or dotted keys there is one path for each. */
  method Flatten(t: Any) returns (f: map<string, Any>)
    requires t.Map?
    ensures Flattened(t.m, "", map[], f)
    ensures WellKeyed(t) ==> IsFlat(t.m, f)
  {
    hide Flattened, IsFlat, WellKeyed;
    var result := new Table();
    FlattenRecursive(t, "", result);
    f := result.m;
    if WellKeyed(t) {
      WellKeyedLeaves(t.m);
      FlattenedIsFlat(t.m, f);
    }
  }

  // ----- merge.flattenValues -----

  function AsValue(format: Any -> string, a: Any): Value {
    if a.Typed? then a.v else Value(a, format(a), TypeUnknown, SourceMemory, 0)
  }

  function GetV(d: Data, s: string): Option<Value> {
    if s in d then Some(d[s]) else None
  }

  /** `result` holds the flat map's values as configuration values. */
  ghost predicate ValuesOf(format: Any -> string, flat: map<string, Any>, result: Data) {
    result.Keys == flat.Keys && forall s :: s in flat ==> result[s] == AsValue(format, flat[s])
  }

  /** `result` is a flattening of the map, as configuration values. */
  ghost predicate ValuesFlattened(format: Any -> string, m: map<string, Any>, prefix: string, result: Data) {
    exists flat :: Flattened(m, prefix, map[], flat) && ValuesOf(format, flat, result)
  }

  lemma FlattenedOnto(m: map<string, Any>, prefix: string, before: map<string, Any>, f: map<string, Any>)
    requires Flattened(m, prefix, map[], f)
    ensures Flattened(m, prefix, before, before + f)
  {
    hide Given, Gives;
    forall s
      ensures if Given(m, prefix, s) then s in before + f && Gives(m, prefix, s, (before + f)[s])
              else Get(before + f, s) == Get(before, s)
    {
      assert !Given(m, prefix, s) ==> Get(f, s) == Get(map[], s);
    }
  }

  /** Reads the nested Go map `d`, whose tree is `t`; `format` is formatValue of types.go. */
  method FlattenValues(format: Any -> string, d: Dict, prefix: string, ghost t: Any) returns (result: Data)
    requires Denotes(d, t)
    ensures ValuesFlattened(format, t.m, prefix, result)
    decreases t
  {
    hide Flattened, ValuesOf, ValuesFlattened;
    result := map[];
    ghost var flat: map<string, Any> := map[];
    var todo := d.m.Keys;
    assert t.m - todo == map[];
    NothingGiven(prefix, flat);
    NoValues(format);
    while todo != {}
      invariant todo <= d.m.Keys && Flattened(t.m - todo, prefix, map[], flat) && ValuesOf(format, flat, result)
      decreases |todo|
    {
      var k :| k in todo;
      var key := Prefixed(prefix, k);
      ghost var before := flat;
      match d.m[k] {
        case Item(v) =>
          OneValue(format, flat, result, key, v);
          result := result[key := AsValue(format, v)];
          flat := flat[key := v];
        case Sub(e) =>
          var inner := FlattenValues(format, e, key, t.m[k]);
          ghost var innerFlat := FlatOf(format, t.m[k].m, key, inner);
          MoreValues(format, flat, result, innerFlat, inner);
          FlattenedOnto(t.m[k].m, key, before, innerFlat);
          result := result + inner;
          flat := flat + innerFlat;
      }
      FlattenedStep(t.m, todo, k, prefix, map[], before, flat);
      todo := todo - {k};
    }
    assert t.m - todo == t.m;
    IsFlattening(format, t.m, prefix, flat, result);
  }

  /** Each value of the result was found at a path that ends up under its key: a configuration value is
      taken as it is, any other gets its printed form, no type, the memory source and priority 0. */
  lemma ValueFromPath(format: Any -> string, m: map<string, Any>, prefix: string, result: Data, s: string)
    returns (p: Path)
    requires ValuesFlattened(format, m, prefix, result) && s in result
    ensures At(m, p).Some? && KeyFrom(prefix, p) == s
    ensures At(m, p).value.Typed? ==> result[s] == At(m, p).value.v
    ensures !At(m, p).value.Typed? ==>
              result[s] == Value(At(m, p).value, format(At(m, p).value), TypeUnknown, SourceMemory, 0)
  {
    hide At, KeyFrom;
    var flat := FlatOf(format, m, prefix, result);
    assert s in flat;
    assert !Given(m, prefix, s) ==> Get(flat, s) == Get(map[], s);
    p :| At(m, p) == Some(flat[s]) && KeyFrom(prefix, p) == s;
  }

  ghost function FlatOf(format: Any -> string, m: map<string, Any>, prefix: string, result: Data)
    : (flat: map<string, Any>)
    requires ValuesFlattened(format, m, prefix, result)
    ensures Flattened(m, prefix, map[], flat) && ValuesOf(format, flat, result)
  {
    var flat :| Flattened(m, prefix, map[], flat) && ValuesOf(format, flat, result);
    flat
  }

  lemma IsFlattening(format: Any -> string, m: map<string, Any>, prefix: string, flat: map<string, Any>, result: Data)
    requires Flattened(m, prefix, map[], flat) && ValuesOf(format, flat, result)
    ensures ValuesFlattened(format, m, prefix, result)
  {
  }

  lemma NoValues(format: Any -> string)
    ensures ValuesOf(format, map[], map[])
  {
  }

  lemma OneValue(format: Any -> string, flat: map<string, Any>, result: Data, key: string, v: Any)
    requires ValuesOf(format, flat, result)
    ensures ValuesOf(format, flat[key := v], result[key := AsValue(format, v)])
  {
  }

  lemma MoreValues(format: Any -> string, flat: map<string, Any>, result: Data, flat': map<string, Any>, result': Data)
    requires ValuesOf(format, flat, result) && ValuesOf(format, flat', result')
    ensures ValuesOf(format, flat + flat', result + result')
  {
  }
}
