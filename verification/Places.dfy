/** Where the exporter's nester puts each value, and how the key that a place is flattened to compares
    with the key that was exported. */
module Places {
  import opened Types
  import opened Text
  import opened DottedKeys
  import opened Nesting
  import opened Flattening

  /** The path that buildNested writes to: it skips the parts at which a value is in the way. */
  function Written(m: map<string, Any>, p: Path): Path
    decreases |p|
  {
    if |p| <= 1 then p
    else if p[0] !in m then [p[0]] + Written(map[], p[1..])
    else if m[p[0]].Map? then [p[0]] + Written(m[p[0]].m, p[1..])
    else Written(m, p[1..])
  }

  function Place(kvs: Entries, i: nat): Path
    requires i < |kvs|
  {
    Written(BuildAll(kvs[..i]), Split(kvs[i].0, '.'))
  }

  /** A value of the map after an insertion is the new one at its place, or was there before. */
  lemma {:induction false} BuildPutLeaf(m: map<string, Any>, p: Path, v: Any, q: Path)
    requires p != [] && !v.Map? && At(BuildPut(m, p, v), q).Some?
    ensures (q == Written(m, p) && At(BuildPut(m, p, v), q) == Some(v)) || At(m, q) == At(BuildPut(m, p, v), q)
    decreases |p|
  {
    if |p| > 1 {
      if p[0] !in m {
        if q[0] == p[0] && |q| > 1 {
          BuildPutLeaf(map[], p[1..], v, q[1..]);
          assert q == [q[0]] + q[1..];
        }
      } else if m[p[0]].Map? {
        if q[0] == p[0] && |q| > 1 {
          BuildPutLeaf(m[p[0]].m, p[1..], v, q[1..]);
          assert q == [q[0]] + q[1..];
        }
      } else {
        BuildPutLeaf(m, p[1..], v, q);
      }
    } else {
      assert p == [p[0]];
      if q[0] == p[0] && |q| == 1 { assert q == p; }
    }
  }

  /** So every value of the nested map is the value of an entry, at its place. */
  lemma {:induction false} LeafOrigin(kvs: Entries, q: Path) returns (i: nat)
    requires Flat(kvs) && At(BuildAll(kvs), q).Some?
    ensures i < |kvs| && q == Place(kvs, i) && At(BuildAll(kvs), q) == Some(kvs[i].1)
    decreases |kvs|
  {
    hide At, BuildPut, Written, Split;
    assert kvs != [] by { if kvs == [] { NothingThere(q); } }
    var n := |kvs| - 1;
    var m, p := BuildAll(kvs[..n]), Split(kvs[n].0, '.');
    BuildPutLeaf(m, p, kvs[n].1, q);
    if At(m, q) == At(BuildAll(kvs), q) {
      i := LeafOrigin(kvs[..n], q);
      assert kvs[..n][..i] == kvs[..i];
    } else {
      i := n;
    }
  }

  lemma NothingThere(q: Path)
    ensures At(map[], q) == None
  {
  }

  // ----- lengths -----

  lemma {:induction false} WrittenShorter(m: map<string, Any>, p: Path)
    requires p != []
    ensures Written(m, p) != [] && (forall x :: x in Written(m, p) ==> x in p)
    ensures Written(m, p) == p || |Join(Written(m, p))| < |Join(p)|
    decreases |p|
  {
    if |p| > 1 {
      var rest := p[1..];
      var sub := if p[0] !in m then map[] else if m[p[0]].Map? then m[p[0]].m else m;
      WrittenShorter(sub, rest);
      var w := Written(sub, rest);
      assert p == [p[0]] + rest;
      JoinCons(p[0], rest);
      if Written(m, p) == [p[0]] + w { JoinCons(p[0], w); }
    }
  }

  /** Flattening drops the dots after leading empty parts. */
  lemma {:induction false} KeyFromShorter(p: Path)
    requires p != []
    ensures |KeyFrom("", p)| <= |Join(p)|
    ensures |KeyFrom("", p)| == |Join(p)| ==> KeyFrom("", p) == Join(p)
    ensures |p| > 1 && p[0] == "" ==> |KeyFrom("", p)| < |Join(p)|
    decreases |p|
  {
    if |p| > 1 {
      assert p == [p[0]] + p[1..];
      JoinCons(p[0], p[1..]);
      if p[0] == "" {
        KeyFromShorter(p[1..]);
      } else {
        KeyFromAfter(p[0], p[1..]);
      }
    } else {
      assert p[1..] == [];
    }
  }

  lemma {:induction false} KeyFromAfter(prefix: string, p: Path)
    requires prefix != "" && p != []
    ensures KeyFrom(prefix, p) == prefix + "." + Join(p)
    decreases |p|
  {
    if |p| == 1 {
      assert p[1..] == [];
    } else {
      KeyFromAfter(prefix + "." + p[0], p[1..]);
      Associative(prefix + ".", p[0], "." + Join(p[1..]));
      assert p == [p[0]] + p[1..];
      JoinCons(p[0], p[1..]);
      assert prefix + "." + p[0] + "." + Join(p[1..]) == prefix + "." + (p[0] + "." + Join(p[1..]));
    }
  }

  /** The key that an entry's place is flattened to is shorter than the exported key, unless nothing was
      in the way and the key does not start with a dot. */
  lemma PlaceKey(kvs: Entries, i: nat)
    requires i < |kvs|
    ensures var k, w := kvs[i].0, Place(kvs, i);
            && |KeyFrom("", w)| <= |k|
            && (|KeyFrom("", w)| == |k| ==> KeyFrom("", w) == k && w == Split(k, '.'))
  {
    hide Join, Written, KeyFrom, Split;
    var k := kvs[i].0;
    JoinSplit(k);
    WrittenShorter(BuildAll(kvs[..i]), Split(k, '.'));
    KeyFromShorter(Place(kvs, i));
  }

  // ----- keys that lead back to themselves -----

  predicate LeadingDot(k: string) { k != "" && k[0] == '.' }

  lemma OwnKey(k: string)
    ensures KeyFrom("", Split(k, '.')) == k <==> !LeadingDot(k)
  {
    hide Join, KeyFrom;
    var p := Split(k, '.');
    JoinSplit(k);
    KeyFromShorter(p);
    FirstPart(k);
    if |p| == 1 {
      assert p == [p[0]] && Join([p[0]]) == p[0] && KeyFrom("", [p[0]]) == p[0] by { OnePart(p[0]); }
    } else if p[0] != "" {
      KeyFromAfter(p[0], p[1..]);
      assert p == [p[0]] + p[1..];
      JoinCons(p[0], p[1..]);
      assert KeyFrom("", p) == KeyFrom(p[0], p[1..]) by { FirstStep(p); }
    }
  }

  lemma FirstStep(p: Path)
    requires p != []
    ensures KeyFrom("", p) == KeyFrom(p[0], p[1..])
  {
  }

  lemma OnePart(x: string)
    ensures Join([x]) == x && KeyFrom("", [x]) == x
  {
    assert [x][1..] == [];
  }

  lemma FirstPart(k: string)
    ensures var p := Split(k, '.'); LeadingDot(k) <==> |p| > 1 && p[0] == ""
  {
  }

  /** Whatever path of dot-free parts a key comes from, its own parts are among them. */
  lemma {:induction false} PartsFromPath(p: Path)
    requires p != [] && forall x :: x in p ==> '.' !in x
    ensures forall x :: x in Split(KeyFrom("", p), '.') ==> x in p
    decreases |p|
  {
    hide Join, Split;
    if |p| == 1 {
      OnePart(p[0]);
      SplitNone(p[0], '.');
      assert p == [p[0]];
    } else {
      FirstStep(p);
      if p[0] == "" {
        PartsFromPath(p[1..]);
        assert p == [p[0]] + p[1..];
      } else {
        KeyFromAfter(p[0], p[1..]);
        assert p == [p[0]] + p[1..];
        JoinCons(p[0], p[1..]);
        SplitJoin(p);
      }
    }
  }

  // ----- keys that do not clash -----

  /** No key's path extends another's. */
  ghost predicate Apart(keys: set<string>) {
    forall k, l :: k in keys && l in keys && Split(k, '.') <= Split(l, '.') ==> k == l
  }

  ghost predicate Distinct(kvs: Entries) {
    forall i, j :: 0 <= i < j < |kvs| ==> kvs[i].0 != kvs[j].0
  }

  /** Every value lies at the path of its own key, and nothing else does. */
  ghost predicate AtOwnKeys(m: map<string, Any>, kvs: Entries) {
    && (forall i :: 0 <= i < |kvs| ==> At(m, Split(kvs[i].0, '.')) == Some(kvs[i].1))
    && (forall q :: At(m, q).Some? ==> exists i :: 0 <= i < |kvs| && q == Split(kvs[i].0, '.'))
  }

  lemma NotInTheWay(m: map<string, Any>, kvs: Entries, q: Path)
    requires kvs != [] && Distinct(kvs) && Apart(KeysOf(kvs))
    requires AtOwnKeys(m, kvs[..|kvs| - 1]) && At(m, q).Some?
    ensures !Clash(Split(kvs[|kvs| - 1].0, '.'), q)
  {
    hide At, Split;
    var n := |kvs| - 1;
    var i :| 0 <= i < n && q == Split(kvs[..n][i].0, '.');
    assert kvs[..n][i] == kvs[i] && kvs[i].0 in KeysOf(kvs) && kvs[n].0 in KeysOf(kvs);
  }

  lemma OneMore(m: map<string, Any>, kvs: Entries)
    requires kvs != [] && Flat(kvs) && Distinct(kvs) && AtOwnKeys(m, kvs[..|kvs| - 1])
    requires forall q :: At(m, q).Some? ==> !Clash(Split(kvs[|kvs| - 1].0, '.'), q)
    ensures AtOwnKeys(Put(m, Split(kvs[|kvs| - 1].0, '.'), kvs[|kvs| - 1].1), kvs)
  {
    hide At, Split, Put;
    var n := |kvs| - 1;
    var p, v := Split(kvs[n].0, '.'), kvs[n].1;
    var t := Put(m, p, v);
    forall i | 0 <= i <= n ensures At(t, Split(kvs[i].0, '.')) == Some(kvs[i].1) {
      AtPut(m, p, v, Split(kvs[i].0, '.'));
      if i < n { assert kvs[..n][i] == kvs[i]; }
    }
    forall q | At(t, q).Some? ensures exists i :: 0 <= i < |kvs| && q == Split(kvs[i].0, '.') {
      AtPut(m, p, v, q);
      if q != p {
        var i :| 0 <= i < n && q == Split(kvs[..n][i].0, '.');
        assert kvs[i] == kvs[..n][i];
      }
    }
  }

  /** If no key's path extends another's, nothing is ever in the way. */
  lemma {:induction false} ApartPlaces(kvs: Entries)
    requires Flat(kvs) && Distinct(kvs) && Apart(KeysOf(kvs))
    ensures AtOwnKeys(BuildAll(kvs), kvs)
    decreases |kvs|
  {
    hide At, BuildPut, Split, Put, AtOwnKeys;
    if kvs == [] {
      NothingOwn();
    } else {
      var n := |kvs| - 1;
      var m, p, v := BuildAll(kvs[..n]), Split(kvs[n].0, '.'), kvs[n].1;
      assert KeysOf(kvs) == KeysOf(kvs[..n]) + {kvs[n].0};
      ApartPlaces(kvs[..n]);
      forall q | At(m, q).Some? ensures !Clash(p, q) { NotInTheWay(m, kvs, q); }
      BuildPutIsPut(m, p, v);
      OneMore(m, kvs);
    }
  }

  lemma NothingOwn()
    ensures AtOwnKeys(map[], [])
  {
  }
}
