/** When indexing a state writes into a map that belongs to the caller. insertIndexed binds a raw value
    as it is; if that value is a map, a later key can walk into it and write there. */
module SharedMaps {
  import opened Types
  import opened DottedKeys
  import opened Nesting

  /** A raw value as the nester binds it: as a whole, and not as one of the nester's own maps. */
  function Bound(v: Any): Any { Typed(Value(v, "", TypeUnknown, SourceNone, 0)) }

  function AllBound(kvs: Entries): Entries {
    seq(|kvs|, i requires 0 <= i < |kvs| => (kvs[i].0, Bound(kvs[i].1)))
  }

  /** A caller's map is bound at the path after the insertions. */
  ghost predicate CallersMapAt(kvs: Entries, q: Path) {
    At(NestAll(AllBound(kvs)), q).Some? && At(NestAll(AllBound(kvs)), q).value.Typed? &&
    At(NestAll(AllBound(kvs)), q).value.v.raw.Map?
  }

  /** Inserting the entry walks through a caller's map, and writes there. */
  ghost predicate StepsInto(kvs: Entries, i: nat)
    requires i < |kvs|
  {
    exists q :: q < Parts(kvs[i].0) && CallersMapAt(kvs[..i], q)
  }

  ghost predicate LeavesCallers(kvs: Entries) {
    forall i :: 0 <= i < |kvs| ==> !StepsInto(kvs, i)
  }

  /** What is bound somewhere is the value of an entry whose path it is. */
  lemma {:induction false} BoundOrigin(kvs: Entries, q: Path) returns (i: nat)
    requires At(NestAll(AllBound(kvs)), q).Some?
    ensures i < |kvs| && Parts(kvs[i].0) == q && At(NestAll(AllBound(kvs)), q) == Some(Bound(kvs[i].1))
    decreases |kvs|
  {
    hide At, Put, Parts;
    assert kvs != [] by { if kvs == [] { NothingBound(q); } }
    var n := |kvs| - 1;
    var p := Parts(kvs[n].0);
    assert AllBound(kvs)[..n] == AllBound(kvs[..n]) && AllBound(kvs)[n] == (kvs[n].0, Bound(kvs[n].1));
    if p == [] {
      PutNowhere(NestAll(AllBound(kvs[..n])), Bound(kvs[n].1));
      i := BoundOrigin(kvs[..n], q);
    } else {
      AtPut(NestAll(AllBound(kvs[..n])), p, Bound(kvs[n].1), q);
      if q == p { i := n; } else { i := BoundOrigin(kvs[..n], q); }
    }
  }

  lemma NothingBound(q: Path)
    ensures At(NestAll(AllBound([])), q) == None
  {
  }

  lemma PutNowhere(m: map<string, Any>, v: Any)
    ensures Put(m, [], v) == m
  {
  }

  lemma {:induction false} Listing(f: map<string, Any>) returns (kvs: Entries)
    ensures EachOnce(kvs, f)
    decreases |f|
  {
    if f == map[] {
      kvs := [];
    } else {
      var k :| k in f;
      var rest := Listing(f - {k});
      kvs := [(k, f[k])] + rest;
      OneInFront(k, f, rest);
    }
  }

  lemma OneInFront(k: string, f: map<string, Any>, rest: Entries)
    requires k in f && EachOnce(rest, f - {k})
    ensures EachOnce([(k, f[k])] + rest, f)
  {
    var kvs := [(k, f[k])] + rest;
    assert kvs[0].0 == k;
    forall x | x in f ensures x in KeysOf(kvs) {
      if x != k {
        assert x in KeysOf(rest);
        var i :| 0 <= i < |rest| && rest[i].0 == x;
        assert kvs[i + 1].0 == x;
      }
    }
  }

  /** The first key holds a map, and its path stands in front of the second key's. */
  predicate InFront(f: map<string, Any>, k: string, l: string)
    requires k in f
  {
    f[k].Map? && Parts(k) != [] && Parts(k) < Parts(l)
  }

  /** The key right after one that binds a caller's map in front of it. */
  lemma FirstTwo(f: map<string, Any>, k: string, l: string) returns (kvs: Entries)
    requires k in f && l in f && InFront(f, k, l)
    ensures EachOnce(kvs, f) && !LeavesCallers(kvs)
  {
    hide EachOnce, Parts;
    var rest := Listing(f - {k} - {l});
    assert f - {k} == (f - {k} - {l})[l := f[l]];
    OneInFront(l, f - {k}, rest);
    OneInFront(k, f, [(l, f[l])] + rest);
    kvs := [(k, f[k])] + ([(l, f[l])] + rest);
    assert kvs[..1] == [(k, f[k])] && kvs[1] == (l, f[l]);
    assert CallersMapAt(kvs[..1], Parts(k)) by { OneBound(k, f[k]); }
    assert StepsInto(kvs, 1);
  }

  lemma OneBound(k: string, v: Any)
    requires v.Map? && Parts(k) != []
    ensures CallersMapAt([(k, v)], Parts(k))
  {
    hide Parts;
    var kvs: Entries := [(k, v)];
    assert AllBound(kvs)[..0] == [] && AllBound(kvs)[0] == (k, Bound(v));
    assert NestAll(AllBound(kvs)) == Put(map[], Parts(k), Bound(v));
    AtPut(map[], Parts(k), Bound(v), Parts(k));
  }

  /** Indexing leaves every caller's map alone, in whatever order it takes the keys, if and only if no
      key that holds a map stands in front of another key. */
  lemma {:induction false} CallersMapsUntouched(f: map<string, Any>)
    ensures (forall kvs :: EachOnce(kvs, f) ==> LeavesCallers(kvs)) <==>
            forall k, l :: k in f && l in f ==> !InFront(f, k, l)
  {
    hide Parts, At, NestAll;
    if forall k, l :: k in f && l in f ==> !InFront(f, k, l) {
      forall kvs, i | EachOnce(kvs, f) && 0 <= i < |kvs| ensures !StepsInto(kvs, i) { NoStep(kvs, f, i); }
    } else {
      var k, l :| k in f && l in f && InFront(f, k, l);
      var kvs := FirstTwo(f, k, l);
    }
  }

  lemma NoStep(kvs: Entries, f: map<string, Any>, i: nat)
    requires EachOnce(kvs, f) && i < |kvs|
    requires forall k, l :: k in f && l in f ==> !InFront(f, k, l)
    ensures !StepsInto(kvs, i)
  {
    hide Parts, At, NestAll;
    forall q | CallersMapAt(kvs[..i], q) ensures !(q < Parts(kvs[i].0)) {
      var j := BoundOrigin(kvs[..i], q);
      BoundSomewhere(NestAll(AllBound(kvs[..i])), q);
      assert kvs[..i][j] == kvs[j] && kvs[j].0 in f && kvs[i].0 in f && f[kvs[j].0] == kvs[j].1;
      assert !InFront(f, kvs[j].0, kvs[i].0);
    }
  }

  lemma BoundSomewhere(m: map<string, Any>, q: Path)
    requires At(m, q).Some?
    ensures q != []
  {
  }
}
