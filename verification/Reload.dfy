/** Exporting a configuration as YAML and loading the file again: nest, print, parse, flatten. */
module Reload {
  import opened Types
  import opened Text
  import opened DottedKeys
  import opened Nesting
  import opened Flattening
  import opened YamlScalars
  import opened ConfParser
  import opened Export
  import opened YamlRoundTrip
  import opened YamlKeys
  import opened Places

  ghost predicate Scalars(d: map<string, Any>) {
    forall k :: k in d ==> Scalar(d[k])
  }

  predicate PartsPlain(k: string) {
    forall x :: x in Split(k, '.') ==> PlainKey(x)
  }

  /** What an entry must be for itself. */
  ghost predicate SafeEntry(lib: FloatLib, k: string, v: Any)
    requires Scalar(v)
  {
    !LeadingDot(k) && PartsPlain(k) && SafeScalar(lib, v)
  }

  /** And what the keys must be for each other. */
  ghost predicate Survives(lib: FloatLib, d: map<string, Any>)
    requires Scalars(d)
  {
    Apart(d.Keys) && forall k :: k in d ==> SafeEntry(lib, k, d[k])
  }

  function PartsOf(keys: set<string>): set<string> {
    set k, x | k in keys && x in Split(k, '.') :: x
  }

  // ----- the exported tree -----

  lemma {:induction false} BuildPutPrintable(m: map<string, Any>, p: Path, v: Any)
    requires Printable(Map(m)) && Scalar(v)
    ensures Printable(Map(BuildPut(m, p, v)))
    decreases |p|
  {
    if |p| > 1 {
      BuildPutPrintable(if p[0] !in m then map[] else if m[p[0]].Map? then m[p[0]].m else m, p[1..], v);
    }
  }

  lemma {:induction false} TreePrintable(kvs: Entries)
    requires forall i :: 0 <= i < |kvs| ==> Scalar(kvs[i].1)
    ensures Printable(Map(BuildAll(kvs)))
  {
    hide Scalar, Split;
    if kvs != [] {
      var n := |kvs| - 1;
      TreePrintable(kvs[..n]);
      BuildPutPrintable(BuildAll(kvs[..n]), Split(kvs[n].0, '.'), kvs[n].1);
    }
  }

  lemma {:induction false} BuildPutKeysIn(m: map<string, Any>, p: Path, v: Any, keys: set<string>)
    requires KeysIn(Map(m), keys) && !v.Map? && forall x :: x in p ==> x in keys
    ensures KeysIn(Map(BuildPut(m, p, v)), keys)
    decreases |p|
  {
    if |p| > 1 {
      var rest := p[1..];
      assert p[0] in keys && forall x :: x in rest ==> x in p;
      if p[0] !in m {
        assert KeysIn(Map(map[]), keys);
        BuildPutKeysIn(map[], rest, v, keys);
      } else if m[p[0]].Map? {
        assert KeysIn(m[p[0]], keys);
        BuildPutKeysIn(m[p[0]].m, rest, v, keys);
      } else {
        BuildPutKeysIn(m, rest, v, keys);
      }
      AddedKeysIn(m, p[0], BuildPut(m, p, v), keys);
    } else if p != [] {
      assert p[0] in keys;
      AddedKeysIn(m, p[0], m[p[0] := v], keys);
    }
  }

  lemma AddedKeysIn(m: map<string, Any>, k: string, t: map<string, Any>, keys: set<string>)
    requires KeysIn(Map(m), keys) && k in keys
    requires KeysIn(Map(t), keys) || (k in t && t == m[k := t[k]] && KeysIn(t[k], keys))
    ensures KeysIn(Map(t), keys)
  {
    if k in t && t == m[k := t[k]] && KeysIn(t[k], keys) {
      forall x | x in t ensures x in keys && KeysIn(t[x], keys) {
        if x != k { assert x in m; }
      }
    }
  }

  /** Every key of the tree is a part of an exported key. */
  lemma {:induction false} TreeKeysIn(kvs: Entries, keys: set<string>)
    requires Flat(kvs) && forall i, x :: 0 <= i < |kvs| && x in Split(kvs[i].0, '.') ==> x in keys
    ensures KeysIn(Map(BuildAll(kvs)), keys)
  {
    hide Split;
    if kvs == [] {
      assert KeysIn(Map(map[]), keys);
    } else {
      var n := |kvs| - 1;
      forall i, x | 0 <= i < n && x in Split(kvs[..n][i].0, '.') ensures x in keys {
        assert kvs[..n][i] == kvs[i];
      }
      TreeKeysIn(kvs[..n], keys);
      BuildPutKeysIn(BuildAll(kvs[..n]), Split(kvs[n].0, '.'), kvs[n].1, keys);
    }
  }

  lemma EntryOf(kvs: Entries, d: map<string, Any>, i: nat)
    requires EachOnce(kvs, d) && i < |kvs|
    ensures kvs[i].0 in d && d[kvs[i].0] == kvs[i].1
  {
  }

  lemma KeysOfAll(kvs: Entries, d: map<string, Any>)
    requires EachOnce(kvs, d)
    ensures KeysOf(kvs) == d.Keys && Distinct(kvs)
  {
  }

  // ----- properties of a tree and of its values -----

  lemma {:induction false} LeafBelowKey(m: map<string, Any>, k: string, q: Path)
    requires k in m && m[k].Map? && q != []
    ensures At(m, [k] + q) == At(m[k].m, q)
  {
    assert ([k] + q)[1..] == q;
  }

  lemma LeafAtKey(m: map<string, Any>, k: string)
    requires k in m && !m[k].Map?
    ensures At(m, [k]) == Some(m[k])
  {
  }

  lemma {:induction false} SafeByLeaves(lib: FloatLib, t: Any)
    requires t.Map? && Printable(t)
    requires forall q :: At(t.m, q).Some? ==> Scalar(At(t.m, q).value) && SafeScalar(lib, At(t.m, q).value)
    ensures AllSafe(lib, t)
    decreases t
  {
    hide At, SafeScalar;
    forall k | k in t.m ensures AllSafe(lib, t.m[k]) {
      if t.m[k].Map? {
        forall q | At(t.m[k].m, q).Some?
          ensures Scalar(At(t.m[k].m, q).value) && SafeScalar(lib, At(t.m[k].m, q).value)
        {
          NoEmptyPath(t.m[k].m, q);
          LeafBelowKey(t.m, k, q);
        }
        SafeByLeaves(lib, t.m[k]);
      } else {
        LeafAtKey(t.m, k);
      }
    }
  }

  lemma {:induction false} UnbrokenByLeaves(t: Any)
    requires t.Map? && forall q :: At(t.m, q).Some? ==> NoBreaks(At(t.m, q).value)
    ensures NoBreaks(t)
    decreases t
  {
    hide At;
    forall k | k in t.m ensures NoBreaks(t.m[k]) {
      if t.m[k].Map? {
        forall q | At(t.m[k].m, q).Some? ensures NoBreaks(At(t.m[k].m, q).value) {
          NoEmptyPath(t.m[k].m, q);
          LeafBelowKey(t.m, k, q);
        }
        UnbrokenByLeaves(t.m[k]);
      } else {
        LeafAtKey(t.m, k);
      }
    }
  }

  lemma NoEmptyPath(m: map<string, Any>, q: Path)
    requires At(m, q).Some?
    ensures q != [] && !At(m, q).value.Map?
  {
  }

  lemma {:induction false} LeafUnbroken(v: Any, q: Path)
    requires v.Map? && NoBreaks(v) && At(v.m, q).Some?
    ensures NoBreaks(At(v.m, q).value)
    decreases |q|
  {
    if |q| > 1 { LeafUnbroken(v.m[q[0]], q[1..]); }
  }

  lemma {:induction false} LeafKeysIn(v: Any, q: Path, keys: set<string>)
    requires v.Map? && KeysIn(v, keys) && At(v.m, q).Some?
    ensures forall x :: x in q ==> x in keys
    decreases |q|
  {
    assert q == [q[0]] + q[1..];
    if |q| > 1 { LeafKeysIn(v.m[q[0]], q[1..], keys); }
  }

  lemma {:induction false} LeafPlain(v: Any, q: Path)
    requires v.Map? && PlainKeys(v) && At(v.m, q).Some?
    ensures forall x :: x in q ==> PlainKey(x)
    decreases |q|
  {
    hide PlainKey;
    assert q == [q[0]] + q[1..];
    if |q| > 1 { LeafPlain(v.m[q[0]], q[1..]); }
  }

  lemma {:induction false} LeafOneLine(lib: FloatLib, v: Any, q: Path)
    requires v.Map? && Printable(v) && OneLine(lib, v) && At(v.m, q).Some?
    ensures var a := At(v.m, q).value; Scalar(a) && '\n' !in ScalarText(lib, a)
    decreases |q|
  {
    hide ScalarText;
    if |q| > 1 { LeafOneLine(lib, v.m[q[0]], q[1..]); }
  }

  /** A value of the tree that is read back was read from the value at the same path. */
  lemma {:induction false} LeafRead(lib: FloatLib, t: Any, p: Any, q: Path)
    requires t.Map? && Printable(t) && ReadEntry(lib, t) == Ok(p) && p.Map? && At(p.m, q).Some?
    ensures At(t.m, q).Some? && Scalar(At(t.m, q).value)
    ensures ReadBack(lib, " " + ScalarText(lib, At(t.m, q).value)) == Ok(At(p.m, q).value)
    decreases |q|
  {
    hide ScalarText, ReadBack, ReadKeys;
    EntryByKey(lib, t, p, q[0]);
    if |q| > 1 {
      if !t.m[q[0]].Map? { BlankReads(lib, " " + ScalarText(lib, t.m[q[0]])); }
      LeafRead(lib, t.m[q[0]], p.m[q[0]], q[1..]);
    }
  }

  lemma EntryByKey(lib: FloatLib, t: Any, p: Any, k: string)
    requires t.Map? && Printable(t) && ReadEntry(lib, t) == Ok(p) && p.Map? && k in p.m
    ensures k in t.m && ReadEntry(lib, t.m[k]) == Ok(p.m[k])
  {
    hide ReadKeys, ReadBack, ScalarText;
    KeysRead(lib, t, KeyList(t.m.Keys));
  }

  /** A scalar reads back as a scalar, or as an empty map. */
  lemma BlankReads(lib: FloatLib, text: string)
    ensures var r := ReadBack(lib, text); r.Ok? && r.value.Map? ==> r.value.m == map[]
  {
    hide ParseValue, ValueRead;
    if ValueRead(text) != "" && ParseValue(lib, ValueRead(text)).Ok? {
      assert Scalar(ParseValue(lib, ValueRead(text)).value);
    }
  }

  // ----- enough -----

  /** The map gives exactly the entries of `d`. */
  ghost predicate GivesExactly(m: map<string, Any>, d: map<string, Any>) {
    forall s, a :: Gives(m, "", s, a) <==> s in d && d[s] == a
  }

  lemma GivenExactly(m: map<string, Any>, d: map<string, Any>, s: string)
    requires GivesExactly(m, d)
    ensures Given(m, "", s) <==> s in d
  {
    hide Gives;
    if s in d { assert Gives(m, "", s, d[s]); }
  }

  lemma OneFlattening(m: map<string, Any>, d: map<string, Any>, f: map<string, Any>)
    requires GivesExactly(m, d)
    ensures Flattened(m, "", map[], f) <==> f == d
  {
    hide Gives, Given;
    forall s ensures Given(m, "", s) <==> s in d { GivenExactly(m, d, s); }
    if Flattened(m, "", map[], f) {
      forall s ensures Get(f, s) == Get(d, s) {
        assert if Given(m, "", s) then s in f && Gives(m, "", s, f[s]) else Get(f, s) == Get(map[], s);
      }
      SameEntries(f, d);
    }
  }

  /** A tree whose values lie at their own keys' paths flattens to exactly those entries. */
  lemma FlatOwn(m: map<string, Any>, kvs: Entries, d: map<string, Any>)
    requires AtOwnKeys(m, kvs) && EachOnce(kvs, d) && forall k :: k in d ==> !LeadingDot(k)
    ensures forall f :: Flattened(m, "", map[], f) <==> f == d
  {
    forall s, a ensures Gives(m, "", s, a) <==> s in d && d[s] == a { OwnGives(m, kvs, d, s, a); }
    hide Flattened, Gives;
    forall f ensures Flattened(m, "", map[], f) <==> f == d { OneFlattening(m, d, f); }
  }

  lemma SameEntries(f: map<string, Any>, g: map<string, Any>)
    requires forall s :: Get(f, s) == Get(g, s)
    ensures f == g
  {
    forall s | s in f ensures s in g && f[s] == g[s] { assert Get(f, s) == Get(g, s); }
    forall s | s in g ensures s in f { assert Get(f, s) == Get(g, s); }
  }

  lemma OwnGives(m: map<string, Any>, kvs: Entries, d: map<string, Any>, s: string, a: Any)
    requires AtOwnKeys(m, kvs) && EachOnce(kvs, d) && forall k :: k in d ==> !LeadingDot(k)
    ensures Gives(m, "", s, a) <==> s in d && d[s] == a
  {
    hide At, Split, KeyFrom, LeadingDot;
    if Gives(m, "", s, a) {
      var p: Path :| At(m, p) == Some(a) && KeyFrom("", p) == s;
      var i :| 0 <= i < |kvs| && p == Split(kvs[i].0, '.');
      OwnKey(kvs[i].0);
    }
    if s in d {
      assert s in KeysOf(kvs);
      var i :| 0 <= i < |kvs| && kvs[i].0 == s;
      OwnKey(s);
      assert At(m, Split(s, '.')) == Some(d[s]) && KeyFrom("", Split(s, '.')) == s;
    }
  }

  lemma EnoughToReload(lib: FloatLib, kvs: Entries, d: map<string, Any>, text: string)
    requires lib.Sound() && EachOnce(kvs, d) && Scalars(d) && Survives(lib, d)
    requires Printable(Map(BuildAll(kvs))) && text == Printed(lib, Map(BuildAll(kvs)))
    ensures Parsed(lib, text) == Ok(Map(BuildAll(kvs)))
    ensures forall f :: Flattened(BuildAll(kvs), "", map[], f) <==> f == d
  {
    hide Printable, Printed, Parsed, Split, At, BuildAll, PlainKey, SafeScalar, Flattened, LeadingDot;
    var m := BuildAll(kvs);
    KeysOfAll(kvs, d);
    assert Flat(kvs) by { forall i | 0 <= i < |kvs| ensures !kvs[i].1.Map? { EntryOf(kvs, d, i); } }
    ApartPlaces(kvs);
    FlatOwn(m, kvs, d);
    forall q | At(m, q).Some? ensures Scalar(At(m, q).value) && SafeScalar(lib, At(m, q).value) {
      var i :| 0 <= i < |kvs| && q == Split(kvs[i].0, '.');
      EntryOf(kvs, d, i);
    }
    SafeByLeaves(lib, Map(m));
    var parts := PartsOf(d.Keys);
    forall i, x | 0 <= i < |kvs| && x in Split(kvs[i].0, '.') ensures x in parts { EntryOf(kvs, d, i); }
    TreeKeysIn(kvs, parts);
    PlainInTree(Map(m), parts);
    RoundTrip(lib, Map(m), text);
  }

  // ----- and needed -----

  /** The file is read as the tree `p`, and `d` is one way to flatten it. */
  ghost predicate Reloads(lib: FloatLib, kvs: Entries, d: map<string, Any>, text: string, p: Any)
    requires Printable(Map(BuildAll(kvs)))
  {
    && lib.Sound() && EachOnce(kvs, d) && Scalars(d) && Flat(kvs) && text == Printed(lib, Map(BuildAll(kvs)))
    && Parsed(lib, text) == Ok(p) && p.Map? && Flattened(p.m, "", map[], d)
  }

  /** Each key comes from a path of the tree that was read. */
  lemma ReadPath(m: map<string, Any>, d: map<string, Any>, s: string) returns (q: Path)
    requires Flattened(m, "", map[], d) && s in d
    ensures q != [] && At(m, q) == Some(d[s]) && KeyFrom("", q) == s
  {
    assert !Given(m, "", s) ==> Get(d, s) == Get(map[], s);
    q :| At(m, q) == Some(d[s]) && KeyFrom("", q) == s;
    NoEmptyPath(m, q);
  }

  /** No value that comes back breaks its line, so no printed one does. */
  lemma OneLineNeeded(lib: FloatLib, kvs: Entries, d: map<string, Any>, text: string, p: Any)
    requires Printable(Map(BuildAll(kvs))) && Reloads(lib, kvs, d, text, p)
    ensures OneLine(lib, Map(BuildAll(kvs)))
  {
    hide At, Printed, Parsed, Printable, Flattened, KeyFrom, NoBreaks, BuildAll;
    var t := Map(BuildAll(kvs));
    ParsedNoBreaks(lib, text);
    forall q | At(t.m, q).Some? ensures NoBreaks(At(t.m, q).value) {
      var i := LeafOrigin(kvs, q);
      EntryOf(kvs, d, i);
      var r := ReadPath(p.m, d, kvs[i].0);
      LeafUnbroken(p, r);
    }
    UnbrokenByLeaves(t);
    if !OneLine(lib, t) { BrokenTree(lib, t); }
  }

  lemma {:induction false} KeyFromChars(prefix: string, q: Path, c: char)
    requires c in KeyFrom(prefix, q) && c != '.' && c !in prefix
    ensures exists x :: x in q && c in x
    decreases |q|
  {
    if q != [] {
      var next := Prefixed(prefix, q[0]);
      if c in next {
        assert c in q[0] && q[0] in q;
      } else {
        KeyFromChars(next, q[1..], c);
        var x :| x in q[1..] && c in x;
        assert x in q;
      }
    }
  }

  lemma {:induction false} SplitChars(s: string, x: string, c: char)
    requires x in Split(s, '.') && c in x
    ensures c in s
    decreases |s|
  {
    var i := Find(s, '.');
    if i < |s| {
      if x == s[..i] {
        assert c in s[..i];
      } else {
        SplitChars(s[i + 1..], x, c);
      }
    }
  }

  /** The keys of the lines of a text are clean, so the keys that came back hold no colon and no line
      break, and neither do their parts. */
  lemma PartsNeeded(lib: FloatLib, kvs: Entries, d: map<string, Any>, text: string, p: Any, s: string, x: string)
    requires Printable(Map(BuildAll(kvs))) && Reloads(lib, kvs, d, text, p) && s in d && x in Split(s, '.')
    ensures ':' !in x && '\n' !in x && '.' !in x
  {
    hide At, Printed, Parsed, Printable, Flattened, KeyFrom, BuildAll, LineKeys, KeysIn;
    var raws := Split(text, '\n');
    SplitParts(text, '\n');
    SplitParts(s, '.');
    hide Split;
    ParsedKeysIn(lib, text);
    KeysClean(raws);
    var q := ReadPath(p.m, d, s);
    LeafKeysIn(p, q, LineKeys(raws));
    forall c | c in x && (c == ':' || c == '\n') ensures false {
      SplitChars(s, x, c);
      KeyFromChars("", q, c);
    }
  }

  /** So the text has the lines of the tree, and each key that was read has the characters of one of
      the tree's keys. */
  lemma LinesNeeded(lib: FloatLib, kvs: Entries, d: map<string, Any>, text: string, p: Any)
    requires Printable(Map(BuildAll(kvs))) && Reloads(lib, kvs, d, text, p)
    ensures KeysIn(Map(BuildAll(kvs)), PartsOf(d.Keys))
    ensures Split(text, '\n') == BlockLines(lib, Map(BuildAll(kvs)), 0) + [""]
  {
    hide At, Parsed, Printable, Flattened, KeyFrom, BuildAll, LineKeys, KeysIn, BlockLines, Unlines;
    var t, parts := Map(BuildAll(kvs)), PartsOf(d.Keys);
    forall i, x | 0 <= i < |kvs| && x in Split(kvs[i].0, '.') ensures x in parts { EntryOf(kvs, d, i); }
    TreeKeysIn(kvs, parts);
    OneLineNeeded(lib, kvs, d, text, p);
    forall x | x in parts ensures '\n' !in x {
      var k :| k in d && x in Split(k, '.');
      PartsNeeded(lib, kvs, d, text, p, k, x);
    }
    UnbrokenKeys(t, parts);
    TreeLinesUnbroken(lib, t);
    SplitUnlines(BlockLines(lib, t, 0));
  }

  lemma TreeLinesUnbroken(lib: FloatLib, t: Any)
    requires t.Map? && Printable(t) && KeysUnbroken(t) && OneLine(lib, t)
    ensures Unbroken(BlockLines(lib, t, 0))
  {
    KeyLinesUnbroken(lib, t, KeyList(t.m.Keys), 0);
  }

  lemma {:induction false} UnbrokenKeys(v: Any, keys: set<string>)
    requires KeysIn(v, keys) && forall k :: k in keys ==> '\n' !in k
    ensures KeysUnbroken(v)
    decreases v
  {
    if v.Map? {
      forall k | k in v.m ensures '\n' !in k && KeysUnbroken(v.m[k]) { UnbrokenKeys(v.m[k], keys); }
    }
  }

  lemma {:induction false} KeysInMore(v: Any, keys: set<string>, more: set<string>)
    requires KeysIn(v, keys) && keys <= more
    ensures KeysIn(v, more)
    decreases v
  {
    if v.Map? {
      forall k | k in v.m ensures k in more && KeysIn(v.m[k], more) { KeysInMore(v.m[k], keys, more); }
    }
  }

  /** A key read from a printed line has no dot: it has no other characters than a part of a key. */
  lemma ReadKeyDotFree(lib: FloatLib, t: Any, parts: set<string>, k: string)
    requires t.Map? && Printable(t) && KeysIn(t, parts) && forall x :: x in parts ==> ':' !in x && '.' !in x
    requires k in LineKeys(BlockLines(lib, t, 0) + [""])
    ensures '.' !in k
  {
    hide HasKey, KeyOf, Trim, Printable, KeysIn, InTree, KeyLines;
    var raws := BlockLines(lib, t, 0) + [""];
    var l :| l in raws && HasKey(l) && KeyOf(Trim(l)) == k;
    NoKeyOnEmptyLine();
    var key, rest, d := LineOfKey(lib, t, KeyList(t.m.Keys), 0, l);
    InTreeKeys(t, parts, key);
    PrintedLineKey(key, rest, d);
  }

  /** So every part of a key that came back was read as a key, and all of them must be plain. */
  lemma PlainNeeded(lib: FloatLib, kvs: Entries, d: map<string, Any>, text: string, p: Any)
    requires Printable(Map(BuildAll(kvs))) && Reloads(lib, kvs, d, text, p)
    ensures PlainKeys(Map(BuildAll(kvs)))
  {
    hide At, Parsed, Printed, Printable, Flattened, KeyFrom, BuildAll, KeysIn, BlockLines, PlainKeys, LineKeys;
    var t, parts := Map(BuildAll(kvs)), PartsOf(d.Keys);
    var keys := LineKeys(BlockLines(lib, t, 0) + [""]);
    LinesNeeded(lib, kvs, d, text, p);
    ParsedKeysIn(lib, text);
    SplitParts(text, '\n');
    KeysClean(Split(text, '\n'));
    forall x | x in parts ensures ':' !in x && '.' !in x {
      var k :| k in d && x in Split(k, '.');
      PartsNeeded(lib, kvs, d, text, p, k, x);
    }
    forall x | x in parts ensures x in keys {
      var k :| k in d && x in Split(k, '.');
      var q := ReadPath(p.m, d, k);
      LeafKeysIn(p, q, keys);
      forall y | y in q ensures '.' !in y { ReadKeyDotFree(lib, t, parts, y); }
      PartsFromPath(q);
    }
    KeysInMore(t, parts, keys);
    NoneBad(lib, t, keys);
  }

  /** The entry's value lies at its own key's path, in the tree that was printed and in the one that was
      read, and leads back to the key. */
  ghost predicate Back(kvs: Entries, d: map<string, Any>, p: Any, s: string)
    requires p.Map?
  {
    var q := Split(s, '.');
    && s in d && KeyFrom("", q) == s && At(p.m, q) == Some(d[s]) == At(BuildAll(kvs), q)
    && exists i :: 0 <= i < |kvs| && kvs[i].0 == s && Place(kvs, i) == q
  }

  /** A key that does not come back from its own place comes from the place of a longer one, which then
      does not either. */
  lemma LongerNotBack(lib: FloatLib, kvs: Entries, d: map<string, Any>, text: string, p: Any, s: string)
    returns (k: string)
    requires Printable(Map(BuildAll(kvs))) && Reloads(lib, kvs, d, text, p)
    requires ReadEntry(lib, Map(BuildAll(kvs))) == Ok(p) && s in d
    ensures Back(kvs, d, p, s) || (k in d && |k| > |s| && !Back(kvs, d, p, k))
  {
    hide At, Parsed, Printed, Printable, Flattened, KeyFrom, BuildAll, Split, Place, ReadEntry, ReadBack;
    var q := ReadPath(p.m, d, s);
    LeafRead(lib, Map(BuildAll(kvs)), p, q);
    var i := LeafOrigin(kvs, q);
    EntryOf(kvs, d, i);
    PlaceKey(kvs, i);
    k := kvs[i].0;
    SameIndex(kvs, d, i);
  }

  lemma SameIndex(kvs: Entries, d: map<string, Any>, i: nat)
    requires EachOnce(kvs, d) && i < |kvs|
    ensures forall j :: 0 <= j < |kvs| && kvs[j].0 == kvs[i].0 ==> j == i
  {
  }

  lemma AllBack(lib: FloatLib, kvs: Entries, d: map<string, Any>, text: string, p: Any)
    requires Printable(Map(BuildAll(kvs))) && Reloads(lib, kvs, d, text, p)
    requires ReadEntry(lib, Map(BuildAll(kvs))) == Ok(p)
    ensures forall s :: s in d ==> Back(kvs, d, p, s)
  {
    hide Reloads, ReadEntry, Back, BuildAll, Printable;
    assert p.Map? by { ReadsMap(lib, kvs, d, text, p); }
    var bad := set s | s in d && !Back(kvs, d, p, s);
    forall s | s in bad ensures exists k :: k in bad && |k| > |s| {
      var k := LongerNotBack(lib, kvs, d, text, p, s);
      assert k in bad;
    }
    NoLongest(bad);
    forall s | s in d ensures Back(kvs, d, p, s) { assert s !in bad; }
  }

  lemma ReadsMap(lib: FloatLib, kvs: Entries, d: map<string, Any>, text: string, p: Any)
    requires Printable(Map(BuildAll(kvs))) && Reloads(lib, kvs, d, text, p)
    ensures p.Map?
  {
  }

  lemma EntryNeeded(lib: FloatLib, kvs: Entries, d: map<string, Any>, p: Any, s: string)
    requires lib.Sound() && Scalars(d) && p.Map? && Back(kvs, d, p, s) && Printable(Map(BuildAll(kvs)))
    requires var t := Map(BuildAll(kvs)); PlainKeys(t) && OneLine(lib, t) && ReadEntry(lib, t) == Ok(p)
    ensures SafeEntry(lib, s, d[s])
  {
    hide At, Printable, KeyFrom, BuildAll, Split, ReadEntry, ReadBack, ScalarText, PlainKeys, PlainKey, OneLine,
         SafeScalar, LeadingDot, Place;
    var t, q := Map(BuildAll(kvs)), Split(s, '.');
    OwnKey(s);
    LeafPlain(t, q);
    LeafOneLine(lib, t, q);
    LeafRead(lib, t, p, q);
    ScalarReads(lib, d[s]);
  }

  lemma ApartNeeded(kvs: Entries, d: map<string, Any>, p: Any)
    requires p.Map? && forall s :: s in d ==> Back(kvs, d, p, s)
    ensures Apart(d.Keys)
  {
    hide At, KeyFrom, BuildAll, Split, Place;
    forall k, l | k in d.Keys && l in d.Keys && Split(k, '.') <= Split(l, '.') ensures k == l {
      assert Back(kvs, d, p, k) && Back(kvs, d, p, l);
      LeavesPrefixFree(p.m, Split(k, '.'), Split(l, '.'));
      SplitInjective(k, l);
    }
  }

  lemma NeededToReload(lib: FloatLib, kvs: Entries, d: map<string, Any>, text: string, p: Any)
    requires Printable(Map(BuildAll(kvs))) && Reloads(lib, kvs, d, text, p)
    ensures Survives(lib, d)
  {
    hide At, Parsed, Printed, Printable, Flattened, BuildAll, Back, Apart, SafeEntry, PlainKeys, OneLine, ReadEntry;
    var t := Map(BuildAll(kvs));
    OneLineNeeded(lib, kvs, d, text, p);
    PlainNeeded(lib, kvs, d, text, p);
    ParsedPrinted(lib, t);
    AllBack(lib, kvs, d, text, p);
    ApartNeeded(kvs, d, p);
    forall s | s in d ensures SafeEntry(lib, s, d[s]) { EntryNeeded(lib, kvs, d, p, s); }
  }

  // ----- the theorem -----

  /** The exporter's text for the entries, nested in the order `kvs`. */
  ghost function Exported(lib: FloatLib, kvs: Entries, d: map<string, Any>): string
    requires EachOnce(kvs, d) && Scalars(d)
  {
    AllScalar(kvs, d);
    TreePrintable(kvs);
    Printed(lib, Map(BuildAll(kvs)))
  }

  lemma AllScalar(kvs: Entries, d: map<string, Any>)
    requires EachOnce(kvs, d) && Scalars(d)
    ensures Flat(kvs) && forall i :: 0 <= i < |kvs| ==> Scalar(kvs[i].1)
  {
    forall i | 0 <= i < |kvs| ensures Scalar(kvs[i].1) { EntryOf(kvs, d, i); }
  }

  /** A configuration comes back from its own export, whatever order its keys are nested in, if and only
      if no key's path extends another's, no key starts with a dot, every part of every key is plain and
      every value is safe. If it can come back at all, nothing else can. */
  lemma {:induction false} ReloadExact(lib: FloatLib, kvs: Entries, d: map<string, Any>, text: string)
    requires lib.Sound() && EachOnce(kvs, d) && Scalars(d) && Exported(lib, kvs, d) == text
    ensures Survives(lib, d) <==>
              var r := Parsed(lib, text); r.Ok? && r.value.Map? && Flattened(r.value.m, "", map[], d)
    ensures Survives(lib, d) ==>
              var r := Parsed(lib, text);
              r == Ok(Map(BuildAll(kvs))) && forall f :: Flattened(r.value.m, "", map[], f) <==> f == d
  {
    hide Parsed, Printed, Printable, Flattened, Survives, BuildAll;
    AllScalar(kvs, d);
    TreePrintable(kvs);
    if Survives(lib, d) { EnoughToReload(lib, kvs, d, text); }
    var r := Parsed(lib, text);
    if r.Ok? && r.value.Map? && Flattened(r.value.m, "", map[], d) {
      NeededToReload(lib, kvs, d, text, r.value);
    }
  }

  /** In particular, coherent keys with plain parts and safe values do. */
  lemma CoherentSurvives(lib: FloatLib, d: map<string, Any>)
    requires Scalars(d) && Coherent(d.Keys)
    requires forall k :: k in d ==> PartsPlain(k) && SafeScalar(lib, d[k])
    ensures Survives(lib, d)
  {
    hide PartsPlain, SafeScalar, Split;
    forall k | k in d ensures !LeadingDot(k) {
      NormalisedParts(k);
      FirstPart(k);
    }
    forall k, l | k in d.Keys && l in d.Keys && Split(k, '.') <= Split(l, '.') ensures k == l {
      assert Clash(Split(k, '.'), Split(l, '.'));
    }
  }
}
