/** Dotted keys, the nested maps they describe, and the way back: what the three nesters and the two
    flatteners compute. */
module DottedKeys {
  import opened Types
  import opened Text

  type Path = seq<string>

  // ----- keys and paths -----

  function NonEmpty(parts: seq<string>): seq<string> {
    if parts == [] then [] else
    (if parts[0] == "" then [] else [parts[0]]) + NonEmpty(parts[1..])
  }

  /** The non-empty parts of a dotted key. */
  function Parts(key: string): Path {
    NonEmpty(Split(key, '.'))
  }

  /** splitKey of core/state.go and merge/merge.go. */
  method SplitKey(key: string) returns (parts: Path)
    ensures parts == Parts(key)
  {
    hide Parts;
    parts := [];
    var start := 0;
    assert key[0..] == key;
    for i := 0 to |key|
      invariant start <= i && '.' !in key[start..i]
      invariant Parts(key) == parts + Parts(key[start..])
    {
      if key[i] == '.' {
        PartsAtDot(key, start, i);
        if i > start {
          Associative(parts, [key[start..i]], Parts(key[i + 1..]));
          parts := parts + [key[start..i]];
        }
        start := i + 1;
      } else {
        assert key[start..i + 1] == key[start..i] + [key[i]];
      }
    }
    assert key[start..|key|] == key[start..];
    PartsWithoutDot(key[start..]);
    if start < |key| {
      parts := parts + [key[start..]];
    }
  }

  lemma PartsWithoutDot(s: string)
    requires '.' !in s
    ensures Parts(s) == if s == "" then [] else [s]
  {
    SplitNone(s, '.');
    var p := Split(s, '.');
    assert p == [s] && p[1..] == [];
    assert NonEmpty(p[1..]) == [];
    assert NonEmpty(p) == (if s == "" then [] else [s]) + NonEmpty(p[1..]);
  }

  lemma PartsAtDot(key: string, start: nat, i: nat)
    requires start <= i < |key| && key[i] == '.' && '.' !in key[start..i]
    ensures Parts(key[start..]) == (if i == start then [] else [key[start..i]]) + Parts(key[i + 1..])
  {
    var s := key[start..];
    assert s == key[start..i] + ['.'] + key[i + 1..];
    SplitFirst(key[start..i], '.', key[i + 1..]);
  }

  /** The parts of two keys joined by a dot are those of the first and then those of the second. With
      `PartsWithoutDot` this says what the parts of any key are. */
  lemma {:induction false} PartsJoined(a: string, b: string)
    ensures Parts(a + "." + b) == Parts(a) + Parts(b)
    decreases |a|
  {
    var s, i := a + "." + b, Find(a, '.');
    if i == |a| {
      PartsWithoutDot(a);
      assert s[0..] == s && s[..|a|] == a && s[|a| + 1..] == b && s[0..|a|] == a;
      PartsAtDot(s, 0, |a|);
    } else {
      assert a[0..] == a && s[0..] == s && s[0..i] == a[0..i];
      assert s[i + 1..] == a[i + 1..] + "." + b;
      PartsAtDot(a, 0, i);
      PartsAtDot(s, 0, i);
      PartsJoined(a[i + 1..], b);
    }
  }

  /** A path that a normalised key stands for. */
  predicate GoodPath(p: Path) {
    p != [] && forall i :: 0 <= i < |p| ==> p[i] != "" && '.' !in p[i]
  }

  /** No empty part: the key is not empty, has no dot at an end and no two dots in a row. */
  predicate Normalised(key: string) {
    GoodPath(Split(key, '.'))
  }

  function Join(p: Path): string {
    if p == [] then "" else if |p| == 1 then p[0] else p[0] + "." + Join(p[1..])
  }

  lemma {:induction false} SplitJoin(p: Path)
    requires p != [] && forall i :: 0 <= i < |p| ==> '.' !in p[i]
    ensures Split(Join(p), '.') == p
    decreases |p|
  {
    if |p| == 1 {
      SplitNone(p[0], '.');
    } else {
      SplitJoin(p[1..]);
      SplitFirst(p[0], '.', Join(p[1..]));
      assert p[0] + "." + Join(p[1..]) == p[0] + ['.'] + Join(p[1..]);
    }
  }

  lemma JoinCons(k: string, p: Path)
    requires p != []
    ensures Join([k] + p) == k + "." + Join(p)
  {
    assert ([k] + p)[1..] == p;
  }

  lemma {:induction false} JoinSplit(key: string)
    ensures Join(Split(key, '.')) == key
    decreases |key|
  {
    hide Join;
    assert Join([key]) == key by { JoinSnoc([], key); assert [] + [key] == [key]; }
    var i := Find(key, '.');
    if i < |key| {
      JoinSplit(key[i + 1..]);
      JoinCons(key[..i], Split(key[i + 1..], '.'));
      assert key == key[..i] + "." + key[i + 1..];
    }
  }

  lemma {:induction false} JoinSnoc(p: Path, k: string)
    ensures Join(p + [k]) == if p == [] then k else Join(p) + "." + k
    decreases |p|
  {
    if p == [] {
      assert p + [k] == [k];
    } else if |p| == 1 {
      assert (p + [k])[1..] == [k];
    } else {
      JoinSnoc(p[1..], k);
      assert (p + [k])[1..] == p[1..] + [k];
      var r := Join(p[1..]);
      Associative(p[0] + ".", r, ".");
      Associative(p[0] + ".", r + ".", k);
    }
  }

  lemma {:induction false} NonEmptyGood(p: Path)
    requires forall i :: 0 <= i < |p| ==> p[i] != ""
    ensures NonEmpty(p) == p
  {
    if p != [] { NonEmptyGood(p[1..]); }
  }

  /** On a normalised key the two ways of splitting agree, and joining goes back. */
  lemma NormalisedParts(key: string)
    requires Normalised(key)
    ensures Parts(key) == Split(key, '.') && GoodPath(Parts(key)) && Join(Parts(key)) == key
  {
    NonEmptyGood(Split(key, '.'));
    JoinSplit(key);
  }

  lemma {:induction false} PartsGood(key: string)
    ensures Parts(key) == [] || GoodPath(Parts(key))
  {
    SplitParts(key, '.');
    NonEmptyDotFree(Split(key, '.'));
  }

  lemma {:induction false} NonEmptyDotFree(p: Path)
    requires forall q :: q in p ==> '.' !in q
    ensures NonEmpty(p) == [] || GoodPath(NonEmpty(p))
  {
    if p != [] {
      assert p[0] in p;
      NonEmptyDotFree(p[1..]);
    }
  }

  // ----- reading a nested map -----

  /** The value at a path, when there is one and it is not itself a map. */
  function At(m: map<string, Any>, p: Path): (r: Option<Any>)
    ensures r.Some? ==> p != [] && !r.value.Map?
    decreases |p|
  {
    if p == [] || p[0] !in m then None
    else if |p| == 1 then if m[p[0]].Map? then None else Some(m[p[0]])
    else if m[p[0]].Map? then At(m[p[0]].m, p[1..]) else None
  }

  /** Every key, at every level, is non-empty and has no dot. */
  ghost predicate WellKeyed(t: Any) {
    t.Map? ==> forall k :: k in t.m ==> k != "" && '.' !in k && WellKeyed(t.m[k])
  }

  /** No map below the root is empty. */
  ghost predicate Filled(t: Any) {
    t.Map? ==> forall k :: k in t.m ==> (t.m[k].Map? ==> t.m[k].m != map[]) && Filled(t.m[k])
  }

  /** One path is a prefix of the other. */
  predicate Clash(p: Path, q: Path) { p <= q || q <= p }

  /** Values sit at the ends of paths, so no value's path extends another's. */
  lemma {:induction false} LeavesPrefixFree(m: map<string, Any>, p: Path, q: Path)
    requires At(m, p).Some? && At(m, q).Some? && Clash(p, q)
    ensures p == q
    decreases |p|
  {
    assert p[0] == q[0];
    if |p| > 1 && |q| > 1 {
      LeavesPrefixFree(m[p[0]].m, p[1..], q[1..]);
      assert p == [p[0]] + p[1..] && q == [q[0]] + q[1..];
    }
  }

  lemma {:induction false} LeafPathsGood(t: Any, p: Path)
    requires t.Map? && WellKeyed(t) && At(t.m, p).Some?
    ensures GoodPath(p)
    decreases |p|
  {
    if |p| > 1 {
      LeafPathsGood(t.m[p[0]], p[1..]);
      forall i | 0 <= i < |p| ensures p[i] != "" && '.' !in p[i] {
        if i > 0 { assert p[i] == p[1..][i - 1]; }
      }
    }
  }

  // ----- writing into a nested map -----

  /** insertIndexed and insertNested: missing or non-map steps become fresh maps. */
  function Put(m: map<string, Any>, p: Path, v: Any): map<string, Any>
    decreases |p|
  {
    if p == [] then m
    else if |p| == 1 then m[p[0] := v]
    else m[p[0] := Map(Put(if p[0] in m && m[p[0]].Map? then m[p[0]].m else map[], p[1..], v))]
  }

  /** buildNested: a non-map step is not replaced; the walk stays where it is. */
  function BuildPut(m: map<string, Any>, p: Path, v: Any): map<string, Any>
    decreases |p|
  {
    if p == [] then m
    else if |p| == 1 then m[p[0] := v]
    else if p[0] !in m then m[p[0] := Map(BuildPut(map[], p[1..], v))]
    else if m[p[0]].Map? then m[p[0] := Map(BuildPut(m[p[0]].m, p[1..], v))]
    else BuildPut(m, p[1..], v)
  }

  lemma ClashHeads(p: Path, q: Path)
    requires p != [] && (q == [] || q[0] != p[0])
    ensures q != [] ==> !Clash(p, q)
  {
  }

  lemma ClashOne(p: Path, q: Path)
    ensures p == [] || q == [] ==> Clash(p, q)
  {
  }

  lemma ClashTail(p: Path, q: Path)
    requires p != [] && q != [] && p[0] == q[0]
    ensures Clash(p, q) <==> Clash(p[1..], q[1..])
    ensures p == q <==> p[1..] == q[1..]
  {
    assert p == [p[0]] + p[1..] && q == [q[0]] + q[1..];
  }

  /** Writing a value sets its own path, removes whatever lay before or behind it on the same line,
      and touches nothing else. */
  lemma {:induction false} AtPut(m: map<string, Any>, p: Path, v: Any, q: Path)
    requires p != [] && !v.Map?
    ensures At(Put(m, p, v), q) == if q == p then Some(v) else if Clash(p, q) then None else At(m, q)
    decreases |p|
  {
    hide Clash;
    if q == [] || q[0] != p[0] {
      ClashHeads(p, q);
    } else {
      ClashTail(p, q);
      ClashOne(p[1..], q[1..]);
      if |p| > 1 && |q| > 1 {
        AtPut(if p[0] in m && m[p[0]].Map? then m[p[0]].m else map[], p[1..], v, q[1..]);
      }
    }
  }

  /** Whatever is written, a value that does not lie behind its path was there before. */
  lemma {:induction false} PutElsewhere(m: map<string, Any>, p: Path, v: Any, q: Path)
    requires p != [] && !(p <= q) && At(Put(m, p, v), q).Some?
    ensures At(m, q) == At(Put(m, p, v), q)
    decreases |p|
  {
    if q[0] == p[0] && |p| > 1 {
      assert p == [p[0]] + p[1..] && q == [q[0]] + q[1..];
      PutElsewhere(if p[0] in m && m[p[0]].Map? then m[p[0]].m else map[], p[1..], v, q[1..]);
    }
  }

  /** Where no value lies before the path, the two ways of writing agree. */
  lemma {:induction false} BuildPutIsPut(m: map<string, Any>, p: Path, v: Any)
    requires forall q :: At(m, q).Some? && q <= p ==> q == p
    ensures BuildPut(m, p, v) == Put(m, p, v)
    decreases |p|
  {
    if |p| > 1 {
      assert [p[0]] <= p && [p[0]] != p;
      assert p[0] in m && !m[p[0]].Map? ==> At(m, [p[0]]).Some?;
      if p[0] in m {
        var sub := m[p[0]].m;
        forall q | At(sub, q).Some? && q <= p[1..] ensures q == p[1..] {
          assert At(m, [p[0]] + q) == At(sub, q) by { assert ([p[0]] + q)[1..] == q; }
          assert [p[0]] + q <= p;
          assert [p[0]] + q == p;
        }
        BuildPutIsPut(sub, p[1..], v);
      } else {
        BuildPutIsPut(map[], p[1..], v);
      }
    }
  }

  lemma PutKeepsShape(t: Any, p: Path, v: Any)
    requires t.Map? && GoodPath(p) && !v.Map?
    ensures WellKeyed(t) ==> WellKeyed(Map(Put(t.m, p, v)))
    ensures Filled(t) ==> Filled(Map(Put(t.m, p, v)))
    ensures Put(t.m, p, v) != map[]
  {
    hide WellKeyed, Filled;
    if WellKeyed(t) { PutKeepsKeys(t, p, v); }
    if Filled(t) { PutKeepsFilled(t, p, v); }
    assert p[0] in Put(t.m, p, v);
  }

  lemma {:induction false} PutKeepsKeys(t: Any, p: Path, v: Any)
    requires t.Map? && GoodPath(p) && !v.Map? && WellKeyed(t)
    ensures WellKeyed(Map(Put(t.m, p, v)))
    decreases |p|
  {
    if |p| > 1 { PutKeepsKeys(Map(Below(t.m, p[0])), p[1..], v); }
  }

  lemma {:induction false} PutKeepsFilled(t: Any, p: Path, v: Any)
    requires t.Map? && p != [] && !v.Map? && Filled(t)
    ensures Filled(Map(Put(t.m, p, v))) && Put(t.m, p, v) != map[]
    decreases |p|
  {
    assert p[0] in Put(t.m, p, v);
    if |p| > 1 { PutKeepsFilled(Map(Below(t.m, p[0])), p[1..], v); }
  }

  // ----- two filled trees with the same values are the same -----

  lemma {:induction false} SomeLeaf(t: Any) returns (p: Path)
    requires t.Map? && t.m != map[] && Filled(t)
    ensures At(t.m, p).Some?
    decreases t
  {
    assert t.m.Keys != {};
    var k :| k in t.m;
    if t.m[k].Map? {
      var q := SomeLeaf(t.m[k]);
      p := [k] + q;
      assert p[1..] == q;
    } else {
      p := [k];
    }
  }

  /** A map lies at the end of the path. */
  predicate MapAt(m: map<string, Any>, p: Path)
    decreases |p|
  {
    p != [] && p[0] in m && m[p[0]].Map? && (|p| == 1 || MapAt(m[p[0]].m, p[1..]))
  }

  /** The map that a walk steps into for a key: the one bound there, or an empty one. */
  function Below(cur: map<string, Any>, part: string): map<string, Any> {
    if part in cur && cur[part].Map? then cur[part].m else map[]
  }

  /** Copying the entries of `n` into the map at the end of the path. */
  function MergeAt(m: map<string, Any>, p: Path, n: map<string, Any>): map<string, Any>
    decreases |p|
  {
    if p == [] then m
    else if |p| == 1 then m[p[0] := Map(Below(m, p[0]) + n)]
    else m[p[0] := Map(MergeAt(Below(m, p[0]), p[1..], n))]
  }

  predicate Shallow(n: map<string, Any>) {
    forall k :: k in n ==> !n[k].Map?
  }

  /** The copied entries lie one part behind the path and replace whatever was there or behind. */
  lemma {:induction false} AtMerge(m: map<string, Any>, p: Path, n: map<string, Any>, q: Path)
    requires MapAt(m, p) && Shallow(n)
    ensures At(MergeAt(m, p, n), q) ==
            if p < q && q[|p|] in n then if |q| == |p| + 1 then Some(n[q[|p|]]) else None
            else At(m, q)
    decreases |p|
  {
    if q != [] && q[0] == p[0] {
      if |p| == 1 {
        AtOver(m[p[0]].m, n, q[1..]);
      } else {
        AtMerge(m[p[0]].m, p[1..], n, q[1..]);
      }
    }
  }

  lemma AtOver(m: map<string, Any>, n: map<string, Any>, q: Path)
    requires Shallow(n)
    ensures At(m + n, q) ==
            if q != [] && q[0] in n then if |q| == 1 then Some(n[q[0]]) else None else At(m, q)
  {
  }

  /** A map below the root is not empty, so it leads on to a value. */
  lemma {:induction false} LeafBelow(t: Any, p: Path) returns (q: Path)
    requires t.Map? && Filled(t) && MapAt(t.m, p)
    ensures p < q && At(t.m, q).Some?
    decreases |p|
  {
    if |p| == 1 {
      q := SomeLeaf(t.m[p[0]]);
    } else {
      q := LeafBelow(t.m[p[0]], p[1..]);
    }
    q := [p[0]] + q;
    assert q[1..][..|p| - 1] == p[1..];
  }

  lemma {:induction false} LeavesDetermine(t: Any, u: Any)
    requires t.Map? && u.Map? && Filled(t) && Filled(u)
    requires forall p :: At(t.m, p) == At(u.m, p)
    ensures t == u
    decreases t
  {
    forall k | k in t.m ensures k in u.m && t.m[k] == u.m[k] { SameUnder(t, u, k); }
    forall k | k in u.m ensures k in t.m { KeyFound(u, t, k); }
    assert t.m == u.m;
  }

  lemma KeyFound(t: Any, u: Any, k: string)
    requires t.Map? && u.Map? && Filled(t) && k in t.m
    requires forall p :: At(t.m, p) == At(u.m, p)
    ensures k in u.m && (t.m[k].Map? <==> u.m[k].Map?)
  {
    if t.m[k].Map? {
      var p := SomeLeaf(t.m[k]);
      assert ([k] + p)[1..] == p;
      assert At(t.m, [k] + p) == At(t.m[k].m, p);
      assert At(u.m, [k] + p).Some?;
    } else {
      assert At(t.m, [k]).Some? && At(u.m, [k]).Some?;
    }
  }

  lemma {:induction false} SameUnder(t: Any, u: Any, k: string)
    requires t.Map? && u.Map? && Filled(t) && Filled(u) && k in t.m
    requires forall p :: At(t.m, p) == At(u.m, p)
    ensures k in u.m && t.m[k] == u.m[k]
    decreases t, 0
  {
    KeyFound(t, u, k);
    if t.m[k].Map? {
      forall p ensures At(t.m[k].m, p) == At(u.m[k].m, p) {
        if p != [] {
          assert ([k] + p)[1..] == p;
          assert At(t.m, [k] + p) == At(u.m, [k] + p);
        }
      }
      LeavesDetermine(t.m[k], u.m[k]);
    } else {
      assert At(t.m, [k]) == At(u.m, [k]);
    }
  }
}
