/** Go's `map[string]any` values as shared, mutable objects, and the pure trees they stand for.

    The YAML parser and the three nesters all keep one path of such maps open while they write:
    a chain root, child, grandchild, ... in which each map is bound inside the one before. A
    `Frame` records, for every map of the chain but the last, what it holds besides that binding.
    Maps off the chain are finished; `closed` gives the tree of each one. */
module GoMaps {
  import opened Types

  datatype Entry = Item(v: Any) | Sub(d: Dict)

  class Dict {
    var m: map<string, Entry>

    constructor ()
      ensures m == map[]
    {
      m := map[];
    }
  }

  /** The finite tree that a map stands for, read through every binding. */
  ghost predicate Denotes(d: Dict, t: Any)
    reads *
    decreases t
  {
    && t.Map?
    && d.m.Keys == t.m.Keys
    && forall k :: k in d.m.Keys ==>
         match d.m[k]
         case Item(v) => !v.Map? && t.m[k] == v
         case Sub(e) => Denotes(e, t.m[k])
  }

  /** A map stands for at most one tree. */
  lemma {:induction false} DenotesUnique(d: Dict, t: Any, u: Any)
    requires Denotes(d, t) && Denotes(d, u)
    ensures t == u
    decreases t
  {
    forall k | k in t.m.Keys
      ensures t.m[k] == u.m[k]
    {
      match d.m[k]
      case Item(v) =>
      case Sub(e) => DenotesUnique(e, t.m[k], u.m[k]);
    }
    assert t.m == u.m;
  }

  // ----- finished maps -----

  type Closed = map<Dict, Any>

  ghost predicate Shows(e: Entry, a: Any, closed: Closed) {
    match e
    case Item(v) => !v.Map? && a == v
    case Sub(d) => d in closed && a == closed[d]
  }

  ghost predicate ShowsAll(em: map<string, Entry>, am: map<string, Any>, closed: Closed) {
    em.Keys == am.Keys && forall k :: k in em.Keys ==> Shows(em[k], am[k], closed)
  }

  ghost predicate Labelled(closed: Closed)
    reads closed.Keys
  {
    forall d :: d in closed ==> closed[d].Map? && ShowsAll(d.m, closed[d].m, closed)
  }

  lemma {:induction false} LabelledDenotes(closed: Closed, d: Dict)
    requires Labelled(closed) && d in closed
    ensures Denotes(d, closed[d])
    decreases closed[d]
  {
    var t := closed[d];
    forall k | k in d.m.Keys && d.m[k].Sub?
      ensures Denotes(d.m[k].d, t.m[k])
    {
      assert Shows(d.m[k], t.m[k], closed);
      LabelledDenotes(closed, d.m[k].d);
    }
    forall k | k in d.m.Keys && d.m[k].Item?
      ensures !d.m[k].v.Map? && t.m[k] == d.m[k].v
    {
      assert Shows(d.m[k], t.m[k], closed);
    }
  }

  // ----- the open path -----

  /** `rest` is what the enclosing map holds; its entry for `key`, if any, is superseded by the
      next map of the path. */
  datatype Frame = Frame(rest: map<string, Any>, key: string, indent: nat)

  /** A tree with one path open: the maps down to the current one, and the current one's entries. */
  datatype Zipper = Zipper(frames: seq<Frame>, cur: map<string, Any>)

  function Up(z: Zipper): Zipper
    requires z.frames != []
  {
    var f := z.frames[|z.frames| - 1];
    Zipper(z.frames[..|z.frames| - 1], f.rest[f.key := Map(z.cur)])
  }

  /** The whole tree: every open map bound back into the one before. */
  function Root(z: Zipper): map<string, Any>
    decreases |z.frames|
  {
    if z.frames == [] then z.cur else Root(Up(z))
  }

  ghost predicate FrameShown(d: Dict, f: Frame, next: Dict, closed: Closed)
    reads d
  {
    && d.m.Keys == f.rest.Keys + {f.key}
    && d.m[f.key] == Sub(next)
    && forall k :: k in d.m.Keys && k != f.key ==> Shows(d.m[k], f.rest[k], closed)
  }

  ghost predicate Distinct(chain: seq<Dict>, closed: Closed) {
    && (forall i, j :: 0 <= i < j < |chain| ==> chain[i] != chain[j])
    && (forall i :: 0 <= i < |chain| ==> chain[i] !in closed)
  }

  ghost predicate Open(chain: seq<Dict>, z: Zipper, closed: Closed)
    reads chain, closed.Keys
  {
    && |chain| == |z.frames| + 1
    && Distinct(chain, closed)
    && Labelled(closed)
    && (forall i :: 0 <= i < |z.frames| ==> FrameShown(chain[i], z.frames[i], chain[i + 1], closed))
    && ShowsAll(chain[|z.frames|].m, z.cur, closed)
  }

  lemma OpenStart(root: Dict)
    requires root.m == map[]
    ensures Open([root], Zipper([], map[]), map[])
  {
  }

  lemma OpenLength(chain: seq<Dict>, z: Zipper, closed: Closed)
    requires Open(chain, z, closed)
    ensures |chain| == |z.frames| + 1
  {
  }

  /** Leaving the current map: it is finished, and its parent becomes the current map. */
  lemma OpenUp(chain: seq<Dict>, z: Zipper, closed: Closed)
    requires Open(chain, z, closed) && z.frames != []
    ensures var n := |z.frames|; Open(chain[..n], Up(z), closed[chain[n] := Map(z.cur)])
  {
    var n := |z.frames|;
    var d := chain[n];
    var closed' := closed[d := Map(z.cur)];
    FinishOne(closed, d, z.cur);
    ShowParent(chain[n - 1], z.frames[n - 1], d, z.cur, closed);
    forall i | 0 <= i < n - 1
      ensures FrameShown(chain[..n][i], Up(z).frames[i], chain[..n][i + 1], closed')
    {
      FrameStays(chain[i], z.frames[i], chain[i + 1], closed, d, z.cur);
    }
    hide FrameShown, Labelled, ShowsAll;
  }

  /** A map whose entries are shown joins the finished ones. */
  lemma FinishOne(closed: Closed, d: Dict, cur: map<string, Any>)
    requires Labelled(closed) && d !in closed && ShowsAll(d.m, cur, closed)
    ensures Labelled(closed[d := Map(cur)])
  {
    forall e | e in closed ensures ShowsAll(e.m, closed[e].m, closed[d := Map(cur)]) {
      assert ShowsAll(e.m, closed[e].m, closed);
    }
  }

  lemma ShowParent(p: Dict, f: Frame, d: Dict, cur: map<string, Any>, closed: Closed)
    requires FrameShown(p, f, d, closed) && d !in closed
    ensures ShowsAll(p.m, f.rest[f.key := Map(cur)], closed[d := Map(cur)])
  {
  }

  lemma FrameStays(p: Dict, f: Frame, next: Dict, closed: Closed, d: Dict, cur: map<string, Any>)
    requires FrameShown(p, f, next, closed) && d !in closed
    ensures FrameShown(p, f, next, closed[d := Map(cur)])
  {
  }

  /** When the path is closed the root map stands for the whole tree. */
  lemma {:induction false} OpenDenotes(chain: seq<Dict>, z: Zipper, closed: Closed)
    requires Open(chain, z, closed)
    ensures Denotes(chain[0], Map(Root(z)))
    decreases |z.frames|
  {
    if z.frames == [] {
      var closed' := closed[chain[0] := Map(z.cur)];
      assert Labelled(closed');
      LabelledDenotes(closed', chain[0]);
    } else {
      OpenUp(chain, z, closed);
      OpenDenotes(chain[..|z.frames|], Up(z), closed[chain[|z.frames|] := Map(z.cur)]);
    }
  }

  // ----- writing at the end of the path -----

  /** `current[key] = v` for a value that is not a map. */
  method BindItem(ghost chain: seq<Dict>, ghost z: Zipper, ghost closed: Closed,
                  current: Dict, key: string, v: Any)
    requires Open(chain, z, closed) && current == chain[|z.frames|] && !v.Map?
    modifies current
    ensures current.m == old(current.m)[key := Item(v)]
    ensures Open(chain, z.(cur := z.cur[key := v]), closed)
  {
    current.m := current.m[key := Item(v)];
    forall i | 0 <= i < |z.frames|
      ensures FrameShown(chain[i], z.frames[i], chain[i + 1], closed)
    {
      assert chain[i] != current;
    }
  }

  /** `next = make(map[string]any); current[key] = next`, and step into `next`. */
  method BindChild(ghost chain: seq<Dict>, ghost z: Zipper, ghost closed: Closed,
                   current: Dict, key: string, ghost indent: nat) returns (next: Dict)
    requires Open(chain, z, closed) && current == chain[|z.frames|]
    modifies current
    ensures fresh(next) && next.m == map[]
    ensures current.m == old(current.m)[key := Sub(next)]
    ensures Open(chain + [next], Zipper(z.frames + [Frame(z.cur, key, indent)], map[]), closed)
  {
    next := new Dict();
    current.m := current.m[key := Sub(next)];
    ghost var z' := Zipper(z.frames + [Frame(z.cur, key, indent)], map[]);
    ghost var chain' := chain + [next];
    forall i | 0 <= i < |z'.frames|
      ensures FrameShown(chain'[i], z'.frames[i], chain'[i + 1], closed)
    {
      if i < |z.frames| {
        assert chain[i] != current && chain'[i + 1] == chain[i + 1];
        assert FrameShown(chain[i], z.frames[i], chain[i + 1], closed);
      }
    }
  }
}
