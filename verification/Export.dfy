/** The YAML writer of export/export.go. */
module Export {
  import opened Types
  import opened Text
  import opened YamlScalars

  // ----- sorted keys (sort.Strings) -----

  /** The order of sort.Strings; on UTF-8 text, byte order is code point order. */
  predicate Less(a: string, b: string) {
    if a == "" then b != ""
    else b != "" && (a[0] < b[0] || (a[0] == b[0] && Less(a[1..], b[1..])))
  }

  /** The texts are compared at the first place where they differ; a text is after its own beginnings. */
  lemma {:induction false} LessFirstDifference(start: string, a: string, b: string)
    ensures a != "" && b != "" && a[0] < b[0] ==> Less(start + a, start + b)
    ensures b != "" ==> Less(start, start + b)
    decreases |start|
  {
    if start == "" {
      assert start + a == a && start + b == b;
    } else {
      assert (start + a)[1..] == start[1..] + a && (start + b)[1..] == start[1..] + b;
      LessFirstDifference(start[1..], a, b);
    }
  }

  lemma {:induction false} LessTransitive(a: string, b: string, c: string)
    requires Less(a, b) && Less(b, c)
    ensures Less(a, c)
  {
    if a != "" && a[0] == b[0] == c[0] { LessTransitive(a[1..], b[1..], c[1..]); }
  }

  lemma {:induction false} LessTotal(a: string, b: string)
    ensures a == b || Less(a, b) || Less(b, a)
    ensures !(Less(a, b) && Less(b, a)) && !Less(a, a)
  {
    if a != "" { LessTotal(a[1..], a[1..]); }
    if a != "" && b != "" && a[0] == b[0] {
      LessTotal(a[1..], b[1..]);
      if a[1..] == b[1..] { assert a == [a[0]] + a[1..] && b == [b[0]] + b[1..]; }
    }
  }

  predicate Sorted(ks: seq<string>) {
    forall i, j :: 0 <= i < j < |ks| ==> Less(ks[i], ks[j])
  }

  /** `ks` lists the set in increasing order. */
  ghost predicate Lists(ks: seq<string>, s: set<string>) {
    Sorted(ks) && (forall k :: k in ks <==> k in s)
  }

  lemma {:induction false} ListsUnique(ks: seq<string>, ls: seq<string>, s: set<string>)
    requires Lists(ks, s) && Lists(ls, s)
    ensures ks == ls
    decreases |ks|
  {
    assert |ls| > 0 ==> ls[0] in ls;
    if ks == [] {
    } else {
      assert ks[0] in s && ls != [] by { assert ks[0] in ks; assert ks[0] in ls; }
      assert ls[0] in ls && ls[0] in ks;
      LessTotal(ks[0], ls[0]);
      assert ks[0] == ls[0];
      var k := ks[0];
      LessTotal(k, k);
      assert Lists(ks[1..], s - {k}) by { TailLists(ks, s); }
      assert Lists(ls[1..], s - {k}) by { TailLists(ls, s); }
      ListsUnique(ks[1..], ls[1..], s - {k});
    }
  }

  lemma TailLists(ks: seq<string>, s: set<string>)
    requires Lists(ks, s) && ks != []
    ensures Lists(ks[1..], s - {ks[0]})
  {
    LessTotal(ks[0], ks[0]);
    forall k ensures k in ks[1..] <==> k in s - {ks[0]} {
      if k in ks[1..] {
        var i :| 0 <= i < |ks[1..]| && ks[1..][i] == k;
        assert Less(ks[0], ks[i + 1]);
        assert k in ks;
      }
      if k in s && k != ks[0] { assert k in ks; }
    }
  }

  function Insert(ks: seq<string>, k: string): seq<string> {
    if ks == [] || Less(k, ks[0]) then [k] + ks else [ks[0]] + Insert(ks[1..], k)
  }

  lemma {:induction false} InsertLists(ks: seq<string>, k: string, s: set<string>)
    requires Lists(ks, s) && k !in s
    ensures Lists(Insert(ks, k), s + {k})
    decreases |ks|
  {
    if ks != [] {
      var h := ks[0];
      assert h in ks;
      LessTotal(h, k);
      if Less(k, h) {
        forall j | 0 < j < |ks| ensures Less(k, ks[j]) { LessTransitive(k, h, ks[j]); }
      } else {
        TailLists(ks, s);
        InsertLists(ks[1..], k, s - {h});
        var r := Insert(ks[1..], k);
        forall j | 0 <= j < |r| ensures Less(h, r[j]) {
          assert r[j] in r;
          if r[j] != k { assert r[j] in ks[1..]; }
        }
        assert s + {k} == s - {h} + {k} + {h};
      }
    }
  }

  /** The keys of a map in the order the writer visits them. */
  ghost function KeyList(s: set<string>): (ks: seq<string>)
    ensures Lists(ks, s)
    ensures forall k :: k in ks <==> k in s
  {
    if s == {} then [] else
    var k :| k in s;
    var ls := KeyList(s - {k});
    InsertLists(ls, k, s - {k});
    assert s - {k} + {k} == s;
    Insert(ls, k)
  }

  /** Whatever order the keys are collected in, sorting gives the one increasing list. */
  method SortedKeys(m: map<string, Any>) returns (keys: seq<string>)
    ensures keys == KeyList(m.Keys)
  {
    keys := [];
    var todo := m.Keys;
    while todo != {}
      invariant todo <= m.Keys && Lists(keys, m.Keys - todo)
      decreases |todo|
    {
      var k :| k in todo;
      InsertLists(keys, k, m.Keys - todo);
      keys := Insert(keys, k);
      assert m.Keys - todo + {k} == m.Keys - (todo - {k});
      todo := todo - {k};
    }
    assert m.Keys - todo == m.Keys;
    ListsUnique(keys, KeyList(m.Keys), m.Keys);
  }

  // ----- the printed lines -----

  /** A tree of maps over scalars: what the YAML reader can rebuild. Lists are not part of it. */
  predicate Printable(v: Any) {
    Scalar(v) || (v.Map? && forall k :: k in v.m ==> Printable(v.m[k]))
  }

  function Pad(depth: nat): (s: string)
    ensures |s| == 2 * depth && forall c :: c in s ==> c == ' '
  {
    if depth == 0 then "" else "  " + Pad(depth - 1)
  }

  /** The lines of one map, keys in order, two spaces a level. */
  ghost function BlockLines(lib: FloatLib, t: Any, depth: nat): seq<string>
    requires t.Map? && Printable(t)
    decreases t, 1, 0
  {
    KeyLines(lib, t, KeyList(t.m.Keys), depth)
  }

  ghost function KeyLines(lib: FloatLib, t: Any, ks: seq<string>, depth: nat): seq<string>
    requires t.Map? && Printable(t) && forall k :: k in ks ==> k in t.m
    decreases t, 0, |ks|
  {
    if ks == [] then [] else
    EntryLines(lib, ks[0], t.m[ks[0]], depth) + KeyLines(lib, t, ks[1..], depth)
  }

  ghost function EntryLines(lib: FloatLib, k: string, v: Any, depth: nat): seq<string>
    requires Printable(v)
    decreases v, 2, 0
  {
    if v.Map? then [Pad(depth) + k + ":"] + BlockLines(lib, v, depth + 1)
    else [Pad(depth) + k + ":" + (" " + ScalarText(lib, v))]
  }

  function Unlines(lines: seq<string>): string {
    if lines == [] then "" else lines[0] + "\n" + Unlines(lines[1..])
  }

  lemma {:induction false} UnlinesAppend(a: seq<string>, b: seq<string>)
    ensures Unlines(a + b) == Unlines(a) + Unlines(b)
  {
    if a == [] {
      assert a + b == b;
    } else {
      UnlinesAppend(a[1..], b);
      assert (a + b)[1..] == a[1..] + b && (a + b)[0] == a[0];
      assert Unlines(a + b) == a[0] + "\n" + Unlines(a[1..] + b);
      assert Unlines(a) == a[0] + "\n" + Unlines(a[1..]);
      hide Unlines;
      Associative(a[0] + "\n", Unlines(a[1..]), Unlines(b));
    }
  }

  ghost function Printed(lib: FloatLib, t: Any): string
    requires t.Map? && Printable(t)
  {
    Unlines(BlockLines(lib, t, 0))
  }

  // ----- the writer itself -----

  class Writer {
    var text: string

    constructor ()
      ensures text == ""
    {
      text := "";
    }

    method Write(s: string)
      modifies this
      ensures text == old(text) + s
    {
      text := text + s;
    }
  }

  /** writeYAML on a scalar. */
  method WriteScalar(lib: FloatLib, w: Writer, v: Any)
    requires Scalar(v)
    modifies w
    ensures w.text == old(w.text) + ScalarText(lib, v) + "\n"
  {
    match v
    case Str(s) =>
      var quote := NeedsQuoting(lib, s);
      if quote {
        var e := EscapeString(s);
        w.Write("\"" + e + "\"" + "\n");
      } else {
        w.Write(s + "\n");
      }
    case Int(i) => w.Write(IntText(i) + "\n");
    case Float(b) => w.Write(lib.format(b) + "\n");
    case Bool(b) => if b { w.Write("true\n"); } else { w.Write("false\n"); }
    case Nil => w.Write("null\n");
  }

  /** One key of a map: the inline value, or the nested block on the lines below. */
  method WriteEntry(lib: FloatLib, w: Writer, key: string, value: Any, indent: nat)
    requires Printable(value)
    modifies w
    ensures w.text == old(w.text) + Unlines(EntryLines(lib, key, value, indent))
    decreases value, 2
  {
    hide BlockLines, ScalarText, Pad;
    w.Write(Pad(indent) + key + ":");
    if value.Map? {
      w.Write("\n");
      WriteYAMLMap(lib, w, value, indent + 1);
    } else {
      w.Write(" ");
      WriteScalar(lib, w, value);
      assert EntryLines(lib, key, value, indent)[1..] == [];
    }
  }

  method WriteYAMLMap(lib: FloatLib, w: Writer, t: Any, indent: nat)
    requires t.Map? && Printable(t)
    modifies w
    ensures w.text == old(w.text) + Unlines(BlockLines(lib, t, indent))
    decreases t, 1
  {
    hide EntryLines, Unlines, KeyLines, Lists, Printable;
    var keys := SortedKeys(t.m);
    assert keys[0..] == keys;
    for n := 0 to |keys|
      invariant w.text + Unlines(KeyLines(lib, t, keys[n..], indent)) ==
                old(w.text) + Unlines(BlockLines(lib, t, indent))
    {
      KeyLinesStep(lib, t, keys, n, indent);
      ghost var before := w.text;
      WriteEntry(lib, w, keys[n], t.m[keys[n]], indent);
      Associative(before, Unlines(EntryLines(lib, keys[n], t.m[keys[n]], indent)),
                  Unlines(KeyLines(lib, t, keys[n + 1..], indent)));
    }
    NoKeyLines(lib, t, indent);
  }

  lemma KeyLinesStep(lib: FloatLib, t: Any, keys: seq<string>, n: nat, indent: nat)
    requires t.Map? && Printable(t) && n < |keys| && forall k :: k in keys ==> k in t.m
    ensures Printable(t.m[keys[n]])
    ensures Unlines(KeyLines(lib, t, keys[n..], indent)) ==
            Unlines(EntryLines(lib, keys[n], t.m[keys[n]], indent)) + Unlines(KeyLines(lib, t, keys[n + 1..], indent))
  {
    hide EntryLines, Unlines;
    assert keys[n..][1..] == keys[n + 1..];
    UnlinesAppend(EntryLines(lib, keys[n], t.m[keys[n]], indent), KeyLines(lib, t, keys[n + 1..], indent));
  }

  lemma NoKeyLines(lib: FloatLib, t: Any, indent: nat)
    requires t.Map? && Printable(t)
    ensures Unlines(KeyLines(lib, t, [], indent)) == ""
  {
  }
}
