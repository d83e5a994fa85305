/** The three in-place nesters: each walks a `current` pointer down shared mutable maps and writes
    at the end of the walk. */
module NestedMaps {
  import opened Types
  import opened Text
  import opened GoMaps
  import opened DottedKeys
  import opened Nesting

  /** Where each map is bound: no map is reached through two bindings. */
  type Places = map<Dict, (Dict, string)>

  ghost predicate Unshared(ds: set<Dict>, place: Places)
    reads ds
  {
    forall d, k :: d in ds && k in d.m && d.m[k].Sub? ==> d.m[k].d in place && place[d.m[k].d] == (d, k)
  }

  /** A walk in progress: the open path, the finished maps, and where everything is bound. */
  datatype Cursor = Cursor(chain: seq<Dict>, z: Zipper, closed: Closed, place: Places)

  ghost function Maps(c: Cursor): set<Dict> {
    (set d | d in c.chain) + c.closed.Keys
  }

  ghost predicate Walking(c: Cursor)
    reads c.chain, c.closed.Keys
  {
    Open(c.chain, c.z, c.closed) && Unshared(Maps(c), c.place)
  }

  ghost function Down(c: Cursor, part: string, next: Dict): Cursor
    requires c.chain != []
  {
    Cursor(c.chain + [next], Zipper(c.z.frames + [Frame(c.z.cur, part, 0)], Below(c.z.cur, part)),
           c.closed - {next}, c.place[next := (c.chain[|c.chain| - 1], part)])
  }

  /** Stepping into a bound map takes it from the finished ones to the open path. */
  lemma DownBound(c: Cursor, part: string)
    requires Walking(c)
    requires var cur := c.chain[|c.z.frames|]; part in cur.m && cur.m[part].Sub?
    ensures var next := c.chain[|c.z.frames|].m[part].d;
            next in c.closed && Walking(Down(c, part, next)) && Maps(Down(c, part, next)) == Maps(c)
  {
    var cur := c.chain[|c.z.frames|];
    var next := cur.m[part].d;
    assert Shows(cur.m[part], c.z.cur[part], c.closed);
    assert c.place[next] == (cur, part);
    var c' := Down(c, part, next);
    assert Maps(c') == Maps(c);
    assert c'.place == c.place;
    StillShown(c, part, next);
  }

  /** The entry that the walk goes through is the only one bound to the next map. */
  lemma OneBinding(c: Cursor, part: string, next: Dict)
    requires Unshared(Maps(c), c.place) && |c.chain| == |c.z.frames| + 1
    requires next in c.place && c.place[next] == (c.chain[|c.z.frames|], part)
    ensures forall d, k :: d in Maps(c) && k in d.m && !(d == c.chain[|c.z.frames|] && k == part) && d.m[k].Sub? ==>
              d.m[k].d != next
  {
    forall d, k | d in Maps(c) && k in d.m && !(d == c.chain[|c.z.frames|] && k == part) && d.m[k].Sub?
      ensures d.m[k].d != next
    {
      assert c.place[d.m[k].d] == (d, k);
    }
  }

  lemma StillShown(c: Cursor, part: string, next: Dict)
    requires Walking(c) && next in c.closed
    requires var cur := c.chain[|c.z.frames|];
             part in cur.m && cur.m[part] == Sub(next) && next in c.place && c.place[next] == (cur, part)
    ensures var c' := Down(c, part, next); Open(c'.chain, c'.z, c'.closed)
  {
    var n := |c.z.frames|;
    var cur, rest := c.chain[n], c.closed - {next};
    var c' := Down(c, part, next);
    OneBinding(c, part, next);
    hide Unshared;
    assert next in Maps(c) && cur in Maps(c) && cur != next;
    LabelledWithout(c.closed, next);
    forall i | 0 <= i < n ensures FrameShown(c'.chain[i], c'.z.frames[i], c'.chain[i + 1], rest) {
      assert c.chain[i] in Maps(c) && c.chain[i] != cur;
      FrameWithout(c.chain[i], c.z.frames[i], c.chain[i + 1], c.closed, next);
    }
    LastFrame(cur, c.z.cur, part, next, c.closed);
    assert ShowsAll(next.m, c.closed[next].m, c.closed);
    ShowsWithout(next.m, c.closed[next].m, c.closed, next);
    hide FrameShown, ShowsAll, Labelled;
  }

  lemma LabelledWithout(closed: Closed, next: Dict)
    requires Labelled(closed)
    requires forall d, k :: d in closed && k in d.m && d.m[k].Sub? ==> d.m[k].d != next
    ensures Labelled(closed - {next})
  {
    forall d | d in closed - {next} ensures ShowsAll(d.m, closed[d].m, closed - {next}) {
      assert ShowsAll(d.m, closed[d].m, closed);
      ShowsWithout(d.m, closed[d].m, closed, next);
    }
  }

  lemma FrameWithout(d: Dict, f: Frame, e: Dict, closed: Closed, next: Dict)
    requires FrameShown(d, f, e, closed)
    requires forall k :: k in d.m && d.m[k].Sub? ==> d.m[k].d != next
    ensures FrameShown(d, f, e, closed - {next})
  {
  }

  lemma LastFrame(cur: Dict, am: map<string, Any>, part: string, next: Dict, closed: Closed)
    requires ShowsAll(cur.m, am, closed) && part in cur.m && cur.m[part] == Sub(next)
    requires forall k :: k in cur.m && k != part && cur.m[k].Sub? ==> cur.m[k].d != next
    ensures FrameShown(cur, Frame(am, part, 0), next, closed - {next})
  {
    forall k | k in cur.m.Keys && k != part ensures Shows(cur.m[k], am[k], closed - {next}) {
      assert Shows(cur.m[k], am[k], closed);
    }
  }

  /** A finished map that no entry is bound to can be left out. */
  lemma ShowsWithout(em: map<string, Entry>, am: map<string, Any>, closed: Closed, next: Dict)
    requires ShowsAll(em, am, closed) && forall k :: k in em && em[k].Sub? ==> em[k].d != next
    ensures ShowsAll(em, am, closed - {next})
  {
    forall k | k in em.Keys ensures Shows(em[k], am[k], closed - {next}) { assert Shows(em[k], am[k], closed); }
  }

  /** A fresh map bound where there was no map. */
  method EnterFresh(ghost c: Cursor, current: Dict, part: string) returns (next: Dict)
    requires Walking(c) && current == c.chain[|c.z.frames|]
    requires part !in current.m || current.m[part].Item?
    modifies current
    ensures Walking(Down(c, part, next)) && fresh(next)
  {
    hide Open;
    NothingBelow(c, part);
    next := BindChild(c.chain, c.z, c.closed, current, part, 0);
    assert c.closed - {next} == c.closed;
    ghost var c' := Down(c, part, next);
    forall d, k | d in Maps(c') && k in d.m && d.m[k].Sub?
      ensures d.m[k].d in c'.place && c'.place[d.m[k].d] == (d, k)
    {
      if d != next && !(d == current && k == part) {
        assert d in Maps(c) && k in old(d.m) && old(d.m[k]) == d.m[k];
      }
    }
  }

  lemma NothingBelow(c: Cursor, part: string)
    requires Walking(c)
    requires var cur := c.chain[|c.z.frames|]; part !in cur.m || cur.m[part].Item?
    ensures Below(c.z.cur, part) == map[]
    ensures |c.chain| == |c.z.frames| + 1 && c.chain[|c.z.frames|] in Maps(c)
  {
    var cur := c.chain[|c.z.frames|];
    assert part in cur.m ==> Shows(cur.m[part], c.z.cur[part], c.closed);
  }

  /** One step of the walk in insertIndexed and insertNested: make the map that is missing, replace
      a value by a map, or enter the map that is there. */
  method Enter(ghost c: Cursor, current: Dict, part: string) returns (next: Dict)
    requires Walking(c) && current == c.chain[|c.z.frames|]
    modifies current
    ensures Walking(Down(c, part, next))
    ensures Maps(Down(c, part, next)) <= Maps(c) + {next} && (next in Maps(c) || fresh(next))
  {
    if part !in current.m || current.m[part].Item? {
      next := EnterFresh(c, current, part);
    } else {
      next := current.m[part].d;
      DownBound(c, part);
    }
  }

  ghost function WithItem(c: Cursor, key: string, v: Any): Cursor {
    c.(z := c.z.(cur := c.z.cur[key := v]))
  }

  method Store(ghost c: Cursor, current: Dict, key: string, v: Any)
    requires Walking(c) && current == c.chain[|c.z.frames|] && !v.Map?
    modifies current
    ensures Walking(WithItem(c, key, v))
  {
    BindItem(c.chain, c.z, c.closed, current, key, v);
  }

  /** The walk is over: every map but the root is finished again. */
  lemma {:induction false} Leave(c: Cursor) returns (c': Cursor)
    requires Walking(c)
    ensures Walking(c') && c'.chain == [c.chain[0]] && c'.z == Zipper([], Root(c.z))
    ensures Maps(c') == Maps(c)
    decreases |c.z.frames|
  {
    if c.z.frames == [] {
      assert c.chain == [c.chain[0]];
      c' := c;
    } else {
      var n := |c.z.frames|;
      OpenUp(c.chain, c.z, c.closed);
      var up := Cursor(c.chain[..n], Up(c.z), c.closed[c.chain[n] := Map(c.z.cur)], c.place);
      assert c.chain == c.chain[..n] + [c.chain[n]];
      assert Maps(up) == Maps(c);
      c' := Leave(up);
    }
  }

  /** What insertIndexed and, if `merges`, insertNested do to the tree: a value that holds a map is
      copied into a map that is already there, any other value is stored. */
  function Stored(m: map<string, Any>, p: Path, v: Any, merges: bool): map<string, Any> {
    if merges && HoldsMap(v) && MapAt(m, p) then MergeAt(m, p, v.v.raw.m) else Put(m, p, v)
  }

  lemma StoredBelow(z: Zipper, p: Path, v: Any, merges: bool)
    requires |p| > 1
    ensures Root(Zipper(z.frames, Stored(z.cur, p, v, merges))) ==
            Root(Zipper(z.frames + [Frame(z.cur, p[0], 0)], Stored(Below(z.cur, p[0]), p[1..], v, merges)))
    ensures MapAt(z.cur, p) == MapAt(Below(z.cur, p[0]), p[1..])
  {
    var inner := Zipper(z.frames + [Frame(z.cur, p[0], 0)], Stored(Below(z.cur, p[0]), p[1..], v, merges));
    assert Up(inner) == Zipper(z.frames, Stored(z.cur, p, v, merges));
  }

  lemma StoredLast(z: Zipper, p: Path, v: Any, merges: bool)
    requires |p| == 1
    ensures MapAt(z.cur, p) <==> p[0] in z.cur && z.cur[p[0]].Map?
    ensures !(merges && HoldsMap(v) && MapAt(z.cur, p)) ==> Stored(z.cur, p, v, merges) == z.cur[p[0] := v]
    ensures merges && HoldsMap(v) && MapAt(z.cur, p) ==>
              Root(Zipper(z.frames, Stored(z.cur, p, v, merges))) ==
              Root(Zipper(z.frames + [Frame(z.cur, p[0], 0)], Below(z.cur, p[0]) + v.v.raw.m))
  {
    if merges && HoldsMap(v) && MapAt(z.cur, p) {
      var inner := Zipper(z.frames + [Frame(z.cur, p[0], 0)], Below(z.cur, p[0]) + v.v.raw.m);
      assert Up(inner) == Zipper(z.frames, Stored(z.cur, p, v, merges));
    }
  }

  function Copied(c: Cursor, part: map<string, Any>): Cursor {
    c.(z := c.z.(cur := c.z.cur + part))
  }

  /** The entries of `n` whose keys are not still to do. */
  ghost predicate PartOf(part: map<string, Any>, n: map<string, Any>, todo: set<string>) {
    part.Keys + todo == n.Keys && part.Keys !! todo && forall k :: k in part ==> part[k] == n[k]
  }

  lemma CopyStep(c: Cursor, part: map<string, Any>, n: map<string, Any>, todo: set<string>, k: string)
    requires PartOf(part, n, todo) && k in todo && Shallow(n)
    ensures k in n && !n[k].Map? && PartOf(part[k := n[k]], n, todo - {k})
    ensures WithItem(Copied(c, part), k, n[k]) == Copied(c, part[k := n[k]])
  {
    assert (c.z.cur + part)[k := n[k]] == c.z.cur + part[k := n[k]];
  }

  lemma CopyEnds(c: Cursor, n: map<string, Any>)
    ensures PartOf(map[], n, n.Keys) && Copied(c, map[]) == c
    ensures forall part :: PartOf(part, n, {}) ==> part == n
  {
    assert c.z.cur + map[] == c.z.cur;
  }

  /** The copy loop of insertNested, in any order of the new map's keys. */
  method CopyInto(ghost c: Cursor, current: Dict, n: map<string, Any>) returns (ghost c': Cursor)
    requires Walking(c) && current == c.chain[|c.z.frames|] && Shallow(n)
    modifies current
    ensures c' == Copied(c, n) && Walking(c')
  {
    hide Walking, PartOf, Shallow, Maps;
    c' := c;
    var todo := n.Keys;
    ghost var part: map<string, Any> := map[];
    CopyEnds(c, n);
    while todo != {}
      invariant c' == Copied(c, part) && Walking(c') && PartOf(part, n, todo)
      decreases |todo|
    {
      var k :| k in todo;
      CopyStep(c, part, n, todo, k);
      Store(c', current, k, n[k]);
      c', part, todo := WithItem(c', k, n[k]), part[k := n[k]], todo - {k};
    }
  }

  /** The end of the walk of insertIndexed and insertNested. */
  method Finish(ghost w: Cursor, current: Dict, part: string, v: Any, merges: bool) returns (ghost w': Cursor)
    requires Walking(w) && |w.chain| == |w.z.frames| + 1 && current == w.chain[|w.z.frames|] && !v.Map?
    requires merges && HoldsMap(v) && MapAt(w.z.cur, [part]) ==> Shallow(v.v.raw.m)
    modifies Maps(w)
    ensures Walking(w') && w'.chain[0] == w.chain[0] && Maps(w') == Maps(w)
    ensures Root(w'.z) == Root(Zipper(w.z.frames, Stored(w.z.cur, [part], v, merges)))
  {
    hide Stored, Put, Root, Open, Unshared, MapAt, Shallow;
    SameMapness(w, part);
    StoredLast(w.z, [part], v, merges);
    LastInMaps(w);
    if merges && HoldsMap(v) && part in current.m && current.m[part].Sub? {
      var existing := current.m[part].d;
      DownBound(w, part);
      w' := CopyInto(Down(w, part, existing), existing, v.v.raw.m);
    } else {
      Store(w, current, part, v);
      w' := WithItem(w, part, v);
    }
  }

  lemma SameMaps(c: Cursor, key: string, v: Any)
    ensures Maps(WithItem(c, key, v)) == Maps(c)
  {
  }

  lemma LastInMaps(c: Cursor)
    requires |c.chain| == |c.z.frames| + 1
    ensures c.chain[|c.z.frames|] in Maps(c)
  {
  }

  lemma BuildPutBelow(z: Zipper, p: Path, v: Any)
    requires |p| > 1 && (p[0] in z.cur ==> z.cur[p[0]].Map?)
    ensures Root(Zipper(z.frames, BuildPut(z.cur, p, v))) ==
            Root(Zipper(z.frames + [Frame(z.cur, p[0], 0)], BuildPut(Below(z.cur, p[0]), p[1..], v)))
  {
    var inner := Zipper(z.frames + [Frame(z.cur, p[0], 0)], BuildPut(Below(z.cur, p[0]), p[1..], v));
    assert Up(inner) == Zipper(z.frames, BuildPut(z.cur, p, v));
  }

  /** A value whose Raw is itself a map. */
  predicate HoldsMap(v: Any) { v.Typed? && v.v.raw.Map? }

  /** A nested map under construction. */
  class Nested {
    const root: Dict
    ghost var c: Cursor

    ghost predicate Valid()
      reads this, c.chain, c.closed.Keys
    {
      Walking(c) && c.chain == [root] && c.z.frames == []
    }

    /** The tree built so far. */
    ghost function Tree(): map<string, Any>
      reads this
    {
      c.z.cur
    }

    constructor ()
      ensures Valid() && Tree() == map[] && fresh(root) && fresh(Maps(c))
    {
      root := new Dict();
      new;
      OpenStart(root);
      c := Cursor([root], Zipper([], map[]), map[], map[]);
      assert Maps(c) == {root};
    }

    /** The walk shared by insertIndexed and insertNested; `v` is what they store at its end, and the
        second one `merges`. */
    method Insert(key: string, v: Any, merges: bool)
      requires Valid() && !v.Map?
      requires merges && HoldsMap(v) && MapAt(Tree(), Parts(key)) ==> Shallow(v.v.raw.m)
      modifies this, Maps(c)
      ensures Valid() && Tree() == Stored(old(Tree()), Parts(key), v, merges)
      ensures fresh(Maps(c) - old(Maps(c)))
    {
      hide Stored, Put, Root, Parts, Walking, Maps, MapAt, Shallow;
      var parts := SplitKey(key);
      var current := root;
      ghost var w := c;
      assert parts[0..] == parts;
      RootOfTop(Stored(w.z.cur, parts, v, merges));
      for i := 0 to |parts|
        invariant Walking(w) && |w.chain| == |w.z.frames| + 1 && w.chain[0] == root
        invariant current == w.chain[|w.z.frames|]
        invariant Root(Zipper(w.z.frames, Stored(w.z.cur, parts[i..], v, merges))) ==
                  Stored(old(Tree()), parts, v, merges)
        invariant fresh(Maps(w) - old(Maps(c))) && c == old(c)
        invariant i == |parts| ==> i == 0
        invariant i == 0 ==> w == c
        invariant merges && HoldsMap(v) && MapAt(w.z.cur, parts[i..]) ==> Shallow(v.v.raw.m)
      {
        var part := parts[i];
        LastInMaps(w);
        if i == |parts| - 1 {
          assert parts[i..] == [part];
          w := Finish(w, current, part, v, merges);
          c := Leave(w);
          return;
        }
        assert parts[i..][1..] == parts[i + 1..];
        StoredBelow(w.z, parts[i..], v, merges);
        var next := Enter(w, current, part);
        w := Down(w, part, next);
        current := next;
      }
      StoredNothing(w.z.cur, v, merges);
      assert parts == [];
    }

    /** The walk of the exporter's buildNested, which does not step over a value that is in the way. */
    method BuildInsert(key: string, v: Any)
      requires Valid() && !v.Map?
      modifies this, Maps(c)
      ensures Valid() && Tree() == BuildPut(old(Tree()), Split(key, '.'), v)
      ensures fresh(Maps(c) - old(Maps(c)))
    {
      hide BuildPut, Root, Split, Walking, Maps;
      var parts := Split(key, '.');
      var current := root;
      ghost var w := c;
      assert parts[0..] == parts;
      RootOfTop(BuildPut(w.z.cur, parts, v));
      for i := 0 to |parts|
        invariant Walking(w) && |w.chain| == |w.z.frames| + 1 && w.chain[0] == root
        invariant current == w.chain[|w.z.frames|]
        invariant i < |parts| ==>
          Root(Zipper(w.z.frames, BuildPut(w.z.cur, parts[i..], v))) == BuildPut(old(Tree()), parts, v)
        invariant i == |parts| ==> Root(w.z) == BuildPut(old(Tree()), parts, v)
        invariant fresh(Maps(w) - old(Maps(c))) && c == old(c)
      {
        var part := parts[i];
        assert parts[i..][1..] == parts[i + 1..];
        SameMapness(w, part);
        LastInMaps(w);
        if i == |parts| - 1 {
          PutLast(w.z.cur, parts[i..], v);
          Store(w, current, part, v);
          SameMaps(w, part, v);
          w := WithItem(w, part, v);
        } else if part !in current.m || current.m[part].Sub? {
          BuildPutBelow(w.z, parts[i..], v);
          var next := Enter(w, current, part);
          w := Down(w, part, next);
          current := next;
        } else {
          BuildPutBlocked(w.z.cur, parts[i..], v);
        }
      }
      c := Leave(w);
    }
  }

  lemma RootOfTop(m: map<string, Any>)
    ensures Root(Zipper([], m)) == m
  {
  }

  lemma PutLast(m: map<string, Any>, p: Path, v: Any)
    requires |p| == 1
    ensures Put(m, p, v) == BuildPut(m, p, v) == m[p[0] := v]
  {
  }

  lemma BuildPutBlocked(m: map<string, Any>, p: Path, v: Any)
    requires |p| > 1 && p[0] in m && !m[p[0]].Map?
    ensures BuildPut(m, p, v) == BuildPut(m, p[1..], v)
  {
  }

  /** A key of the current map is bound to a map exactly when the tree says so. */
  lemma SameMapness(c: Cursor, part: string)
    requires Walking(c)
    ensures var cur := c.chain[|c.z.frames|];
            (part in cur.m <==> part in c.z.cur) &&
            (part in cur.m ==> (cur.m[part].Sub? <==> c.z.cur[part].Map?))
  {
    var cur := c.chain[|c.z.frames|];
    if part in cur.m {
      assert Shows(cur.m[part], c.z.cur[part], c.closed);
      if cur.m[part].Sub? { assert c.closed[cur.m[part].d].Map?; }
    }
  }

  lemma StoredNothing(m: map<string, Any>, v: Any, merges: bool)
    ensures Stored(m, [], v, merges) == m
  {
  }

  // ----- building from a whole state -----

  ghost function Raws(data: Data): map<string, Any> {
    Tabulate(data.Keys, k requires k in data => data[k].raw)
  }

  ghost predicate NoMaps(data: Data) {
    forall k :: k in data ==> !data[k].raw.Map?
  }

  /** `order` lists the raw values of the keys that are done. */
  ghost predicate Listing(order: Entries, data: Data, todo: set<string>) {
    EachOnce(order, Raws(data) - todo) && Flat(order)
  }

  lemma ListingStart(data: Data)
    ensures Listing([], data, data.Keys)
  {
    assert Raws(data) - data.Keys == map[];
  }

  lemma ListingStep(order: Entries, data: Data, todo: set<string>, k: string)
    requires NoMaps(data) && todo <= data.Keys && k in todo && Listing(order, data, todo)
    ensures Listing(order + [(k, data[k].raw)], data, todo - {k})
  {
    hide EachOnce;
    EnumerateSnoc(order, Raws(data), todo, k);
  }

  lemma ListingDone(order: Entries, data: Data)
    requires Listing(order, data, {})
    ensures EachOnce(order, Raws(data)) && Flat(order)
  {
    assert Raws(data) - {} == Raws(data);
  }

  /** buildIndexed: the keys come in any order. */
  method BuildIndexed(data: Data) returns (n: Nested, ghost order: Entries)
    requires NoMaps(data)
    ensures fresh(n) && EachOnce(order, Raws(data)) && Flat(order)
    ensures Denotes(n.root, Map(NestAll(order)))
  {
    hide Put, BuildPut, Parts, Split, Nested.Valid, NestAll, BuildAll, Listing, Denotes;
    n := new Nested();
    order := [];
    NothingNested();
    ListingStart(data);
    var todo := data.Keys;
    while todo != {}
      invariant n.Valid() && fresh(n) && fresh(Maps(n.c)) && n.Tree() == NestAll(order)
      invariant todo <= data.Keys && Listing(order, data, todo)
      decreases |todo|
    {
      var k :| k in todo;
      n.Insert(k, data[k].raw, false);
      NestSnoc(order, k, data[k].raw);
      ListingStep(order, data, todo, k);
      order := order + [(k, data[k].raw)];
      todo := todo - {k};
    }
    ListingDone(order, data);
    TreeDenoted(n);
  }

  /** buildNested. */
  method BuildNested(data: Data) returns (n: Nested, ghost order: Entries)
    requires NoMaps(data)
    ensures fresh(n) && EachOnce(order, Raws(data)) && Flat(order)
    ensures Denotes(n.root, Map(BuildAll(order)))
  {
    hide Put, BuildPut, Parts, Split, Nested.Valid, NestAll, BuildAll, Listing, Denotes;
    n := new Nested();
    order := [];
    NothingNested();
    ListingStart(data);
    var todo := data.Keys;
    while todo != {}
      invariant n.Valid() && fresh(n) && fresh(Maps(n.c)) && n.Tree() == BuildAll(order)
      invariant todo <= data.Keys && Listing(order, data, todo)
      decreases |todo|
    {
      var k :| k in todo;
      n.BuildInsert(k, data[k].raw);
      NestSnoc(order, k, data[k].raw);
      ListingStep(order, data, todo, k);
      order := order + [(k, data[k].raw)];
      todo := todo - {k};
    }
    ListingDone(order, data);
    TreeDenoted(n);
  }

  lemma NothingNested()
    ensures NestAll([]) == map[] && BuildAll([]) == map[] && LastWins([]) == map[]
  {
  }

  lemma TreeDenoted(n: Nested)
    requires n.Valid()
    ensures Denotes(n.root, Map(n.Tree()))
  {
    OpenDenotes(n.c.chain, n.c.z, n.c.closed);
  }

  lemma NestSnoc(kvs: Entries, k: string, v: Any)
    ensures NestAll(kvs + [(k, v)]) == Put(NestAll(kvs), Parts(k), v)
    ensures BuildAll(kvs + [(k, v)]) == BuildPut(BuildAll(kvs), Split(k, '.'), v)
  {
    assert (kvs + [(k, v)])[..|kvs|] == kvs;
  }

  lemma EnumerateSnoc(kvs: Entries, f: map<string, Any>, todo: set<string>, k: string)
    requires EachOnce(kvs, f - todo) && k in todo && k in f
    ensures EachOnce(kvs + [(k, f[k])], f - (todo - {k}))
  {
    var more, g := kvs + [(k, f[k])], f - (todo - {k});
    assert more[|kvs|] == (k, f[k]);
    forall x | x in g ensures x in KeysOf(more) {
      if x != k {
        assert x in f - todo && x in KeysOf(kvs);
        var i :| 0 <= i < |kvs| && kvs[i].0 == x;
        assert more[i].0 == x;
      }
    }
  }
}
