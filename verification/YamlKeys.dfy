/** Which keys survive printing and parsing, and with that exactly which trees do. */
module YamlKeys {
  import opened Types
  import opened Text
  import opened GoMaps
  import opened YamlScalars
  import opened ConfParser
  import opened Export
  import opened YamlRoundTrip

  // ----- every parsed key is the key of a line -----

  predicate HasKey(raw: string) {
    var line := Trim(raw);
    !Skipped(line) && Find(line, ':') < |line|
  }

  function LineKeys(lines: seq<string>): set<string> {
    set l | l in lines && HasKey(l) :: KeyOf(Trim(l))
  }

  ghost predicate KeysIn(v: Any, keys: set<string>) {
    v.Map? ==> forall k :: k in v.m ==> k in keys && KeysIn(v.m[k], keys)
  }

  ghost predicate PathKeysIn(z: Zipper, keys: set<string>) {
    && KeysIn(Map(z.cur), keys)
    && forall i :: 0 <= i < |z.frames| ==> z.frames[i].key in keys && KeysIn(Map(z.frames[i].rest), keys)
  }

  lemma {:induction false} PopToKeysIn(z: Zipper, i: nat, keys: set<string>)
    requires PathKeysIn(z, keys)
    ensures PathKeysIn(PopTo(z, i), keys)
    decreases |z.frames|
  {
    if z.frames != [] && i <= z.frames[|z.frames| - 1].indent {
      assert PathKeysIn(Up(z), keys);
      PopToKeysIn(Up(z), i, keys);
    }
  }

  lemma ReadLineKeysIn(lib: FloatLib, z: Zipper, raw: string, keys: set<string>)
    requires PathKeysIn(z, keys) && (HasKey(raw) ==> KeyOf(Trim(raw)) in keys)
    ensures var r := ReadLine(lib, z, raw); r.Ok? ==> PathKeysIn(r.value, keys)
  {
    hide Trim, PopTo, ValueOf, KeyOf, ParseValue, Find;
    PopToKeysIn(z, Indent(raw), keys);
    if HasKey(raw) { BindKeysIn(lib, PopTo(z, Indent(raw)), KeyOf(Trim(raw)), ValueOf(Trim(raw)), Indent(raw), keys); }
  }

  lemma BindKeysIn(lib: FloatLib, z: Zipper, key: string, value: string, indent: nat, keys: set<string>)
    requires PathKeysIn(z, keys) && key in keys
    ensures var r := Bind(lib, z, key, value, indent); r.Ok? ==> PathKeysIn(r.value, keys)
  {
    hide ParseValue;
    if value == "" {
      assert KeysIn(Map(map[]), keys);
      assert KeysIn(Map(z.cur), keys);
    } else if ParseValue(lib, value).Ok? {
      var v := ParseValue(lib, value).value;
      assert !v.Map? by { assert Scalar(v); }
      assert KeysIn(v, keys);
      forall k | k in z.cur[key := v] ensures k in keys && KeysIn(z.cur[key := v][k], keys) {
        if k != key { assert KeysIn(Map(z.cur), keys) && k in z.cur; }
      }
      assert KeysIn(Map(z.cur[key := v]), keys);
    }
  }

  lemma LineKeyIn(lines: seq<string>, l: string)
    requires l in lines && HasKey(l)
    ensures KeyOf(Trim(l)) in LineKeys(lines)
  {
  }

  lemma StartKeysIn(keys: set<string>)
    ensures PathKeysIn(EMPTY, keys)
  {
  }

  lemma RootKeysIn(z: Zipper, keys: set<string>)
    requires PathKeysIn(z, keys) && z.frames == []
    ensures KeysIn(Map(z.cur), keys)
  {
  }

  /** Whatever text is parsed, each key in the result, at any depth, is the key of a line. */
  lemma ParsedKeysIn(lib: FloatLib, text: string)
    ensures var r := Parsed(lib, text); r.Ok? ==> KeysIn(r.value, LineKeys(Split(text, '\n')))
  {
    hide Split, Fold, PopTo, LineKeys, PathKeysIn, ReadLine, KeyOf, Trim, HasKey;
    var lines := Split(text, '\n');
    var keys := LineKeys(lines);
    var inv := (y: Zipper) => PathKeysIn(y, keys);
    forall y, l | inv(y) && l in lines && LineReader(lib)(y, l).Ok? ensures inv(LineReader(lib)(y, l).value) {
      if HasKey(l) { LineKeyIn(lines, l); }
      ReadLineKeysIn(lib, y, l, keys);
    }
    assert inv(EMPTY) by { StartKeysIn(keys); }
    FoldKeeps(LineReader(lib), inv, EMPTY, lines);
    var r := ReadLines(lib, EMPTY, lines);
    if r.Ok? {
      PopToKeysIn(r.value, 0, keys);
      RootIsPopToZero(r.value);
      RootKeysIn(PopTo(r.value, 0), keys);
    }
  }

  // ----- what such keys look like -----

  /** No colon, no line break, no quote character at an end. */
  predicate Clean(k: string) {
    && ':' !in k && '\n' !in k
    && (k != "" ==> !QuoteChar(k[0]) && !QuoteChar(k[|k| - 1]))
  }

  lemma {:induction false} TrimQuotesShape(s: string)
    ensures var r := TrimQuotes(s);
            && (r != "" ==> !QuoteChar(r[0]) && !QuoteChar(r[|r| - 1]))
            && |r| <= |s| && (|r| == |s| ==> r == s)
            && (forall c :: c in r ==> c in s)
    decreases |s|
  {
    if s != "" && QuoteChar(s[0]) {
      TrimQuotesShape(s[1..]);
    } else if s != "" && QuoteChar(s[|s| - 1]) {
      TrimQuotesShape(s[..|s| - 1]);
    }
  }

  lemma LineKeyClean(raw: string)
    requires HasKey(raw) && '\n' !in raw
    ensures Clean(KeyOf(Trim(raw)))
  {
    hide Trim, TrimQuotes;
    var line := Trim(raw);
    TrimWithin(raw, '\n');
    var name := line[..Find(line, ':')];
    assert ':' !in name && '\n' !in name;
    TrimWithin(name, ':');
    TrimWithin(name, '\n');
    TrimQuotesShape(Trim(name));
  }

  // ----- the key of a printed line -----

  lemma {:induction false} LeadingSpace(s: string, i: nat)
    requires i < |s| - |TrimLeft(s)|
    ensures IsSpace(s[i])
    decreases |s|
  {
    if i > 0 { LeadingSpace(s[1..], i - 1); }
  }

  lemma LeftSpaces(s: string) returns (spaces: string)
    ensures s == spaces + TrimLeft(s) && forall c :: c in spaces ==> IsSpace(c)
  {
    var n := |s| - |TrimLeft(s)|;
    spaces := s[..n];
    TrimLeftSuffix(s);
    forall i | 0 <= i < n ensures IsSpace(spaces[i]) { LeadingSpace(s, i); }
  }

  lemma TrimLeftColon(k: string, rest: string)
    ensures TrimLeft(k + ":" + rest) == TrimLeft(k) + ":" + rest
  {
    hide TrimLeft, IsSpace;
    var spaces := LeftSpaces(k);
    var l := TrimLeft(k);
    var tail := l + ":" + rest;
    Associative(spaces, l, ":");
    Associative(spaces, l + ":", rest);
    assert k + ":" + rest == spaces + tail;
    TrimLeftBefore(spaces, tail);
    assert tail[0] == if l == "" then ':' else l[0];
    assert !IsSpace(':') by { ColonIsNoSpace(); }
    Untrimmed(tail);
  }

  lemma ColonIsNoSpace()
    ensures !IsSpace(':')
  {
  }

  lemma Untrimmed(s: string)
    requires s != "" && !IsSpace(s[0])
    ensures TrimLeft(s) == s
  {
  }

  lemma PrintedLineTrimmed(k: string, rest: string, depth: nat)
    ensures Trim(Pad(depth) + (k + ":" + rest)) == TrimLeft(k) + ":" + TrimRight(rest)
  {
    hide TrimLeft, TrimRight;
    TrimLeftBefore(Pad(depth), k + ":" + rest);
    TrimLeftColon(k, rest);
    TrimRightAfter(TrimLeft(k) + ":", rest);
  }

  lemma KeyBeforeColon(l: string, rest: string)
    requires ':' !in l
    ensures KeyOf(l + ":" + rest) == TrimQuotes(Trim(l))
  {
    hide Trim, TrimQuotes;
    var line := l + ":" + rest;
    FindIs(line, ':', |l|);
    assert line[..|l|] == l;
  }

  lemma TrimLeftWithin(k: string)
    ensures forall c :: c in TrimLeft(k) ==> c in k
    ensures |TrimLeft(k)| <= |k| && (|TrimLeft(k)| == |k| ==> TrimLeft(k) == k)
  {
    var spaces := LeftSpaces(k);
  }

  /** The parser reads a key no longer than the printed one, and as long only if it is the printed
      one, without spaces at its ends and without a leading hash. */
  lemma PrintedLineKey(k: string, rest: string, depth: nat)
    requires ':' !in k && HasKey(Pad(depth) + (k + ":" + rest))
    ensures var r := KeyOf(Trim(Pad(depth) + (k + ":" + rest)));
            && |r| <= |k| && (|r| == |k| ==> r == k && Tight(k) && (k != "" ==> k[0] != '#'))
            && (forall c :: c in r ==> c in k)
  {
    hide Trim, TrimLeft, TrimRight, TrimQuotes, KeyOf, Pad, Find;
    PrintedLineTrimmed(k, rest, depth);
    var l := TrimLeft(k);
    TrimLeftWithin(k);
    KeyBeforeColon(l, TrimRight(rest));
    TrimTwice(l);
    TrimQuotesShape(Trim(l));
    forall c | c in Trim(l) ensures c in k { if c !in l { TrimWithin(l, c); } }
    TrimFixed(k);
    assert k != "" ==> (k + ":" + TrimRight(rest))[0] == k[0];
  }

  // ----- the keys of a tree and the lines it is printed on -----

  /** The key occurs somewhere in the tree. */
  ghost predicate InTree(v: Any, key: string) {
    v.Map? && (key in v.m || exists k :: k in v.m && InTree(v.m[k], key))
  }

  lemma {:induction false} InTreeKeys(v: Any, keys: set<string>, key: string)
    requires KeysIn(v, keys) && InTree(v, key)
    ensures key in keys
    decreases v
  {
    if key !in v.m {
      var k :| k in v.m && InTree(v.m[k], key);
      InTreeKeys(v.m[k], keys, key);
    }
  }

  lemma {:induction false} PlainInTree(v: Any, keys: set<string>)
    requires KeysIn(v, keys) && forall k :: k in keys && InTree(v, k) ==> PlainKey(k)
    ensures PlainKeys(v)
    decreases v
  {
    hide PlainKey;
    if v.Map? {
      forall k | k in v.m ensures PlainKey(k) && PlainKeys(v.m[k]) {
        assert InTree(v, k);
        forall x | x in keys && InTree(v.m[k], x) ensures PlainKey(x) { assert InTree(v, x); }
        PlainInTree(v.m[k], keys);
      }
    }
  }

  /** The first line of an entry carries its key. */
  lemma FirstLine(lib: FloatLib, k: string, v: Any, depth: nat) returns (rest: string)
    requires Printable(v)
    ensures EntryLines(lib, k, v, depth)[..1] == [Pad(depth) + (k + ":" + rest)]
    ensures !v.Map? ==> |EntryLines(lib, k, v, depth)| == 1
    ensures v.Map? ==> EntryLines(lib, k, v, depth)[1..] == BlockLines(lib, v, depth + 1)
  {
    hide ScalarText, Pad, BlockLines;
    rest := if v.Map? then "" else " " + ScalarText(lib, v);
    Associative(Pad(depth), k, ":");
    Associative(Pad(depth), k + ":", rest);
    assert Pad(depth) + k + ":" + "" == Pad(depth) + k + ":";
  }

  /** Every line of a printed tree carries one of its keys. */
  lemma {:induction false} LineOfKey(lib: FloatLib, t: Any, ks: seq<string>, depth: nat, l: string)
    returns (key: string, rest: string, d: nat)
    requires t.Map? && Printable(t) && (forall k :: k in ks ==> k in t.m)
    requires l in KeyLines(lib, t, ks, depth)
    ensures InTree(t, key) && l == Pad(d) + (key + ":" + rest)
    decreases t, |ks|
  {
    hide ScalarText, Pad, EntryLines;
    var k, v := ks[0], t.m[ks[0]];
    if l in KeyLines(lib, t, ks[1..], depth) {
      key, rest, d := LineOfKey(lib, t, ks[1..], depth, l);
    } else {
      var lines := EntryLines(lib, k, v, depth);
      rest := FirstLine(lib, k, v, depth);
      key, d := k, depth;
      assert lines == lines[..1] + lines[1..];
      if l !in lines[..1] {
        key, rest, d := LineOfKey(lib, v, KeyList(v.m.Keys), depth + 1, l);
      }
    }
  }

  lemma {:induction false} Longest(s: set<string>) returns (k: string)
    requires s != {}
    ensures k in s && forall x :: x in s ==> |x| <= |k|
    decreases s
  {
    var x :| x in s;
    k := x;
    if s - {x} != {} {
      var l := Longest(s - {x});
      if |l| > |x| { k := l; }
    }
    assert forall y :: y in s ==> y == x || y in s - {x};
  }

  lemma NoLongest(s: set<string>)
    requires forall x :: x in s ==> exists y :: y in s && |y| > |x|
    ensures s == {}
  {
    if s != {} { var k := Longest(s); }
  }

  /** A key that is not plain can only have been read from the line of a longer such key. */
  lemma LongerKey(lib: FloatLib, t: Any, keys: set<string>, l: string) returns (key: string)
    requires t.Map? && Printable(t) && KeysIn(t, keys) && (forall k :: k in keys ==> Clean(k))
    requires l in BlockLines(lib, t, 0) && HasKey(l) && !PlainKey(KeyOf(Trim(l)))
    ensures key in keys && InTree(t, key) && !PlainKey(key) && |key| > |KeyOf(Trim(l))|
  {
    hide KeyLines, HasKey, KeyOf, Trim, Clean, PlainKey, Printable;
    var rest, d;
    key, rest, d := LineOfKey(lib, t, KeyList(t.m.Keys), 0, l);
    InTreeKeys(t, keys, key);
    OwnLine(key, rest, d);
  }

  lemma KeysClean(raws: seq<string>)
    requires Unbroken(raws)
    ensures forall k :: k in LineKeys(raws) ==> Clean(k)
  {
    hide HasKey, KeyOf, Trim, Clean;
    forall k | k in LineKeys(raws) ensures Clean(k) {
      var l :| l in raws && HasKey(l) && KeyOf(Trim(l)) == k;
      LineKeyClean(l);
    }
  }

  /** On the lines of a printed tree, no key of the tree that is not plain can be read. */
  lemma NoneBad(lib: FloatLib, t: Any, keys: set<string>)
    requires t.Map? && Printable(t) && KeysIn(t, keys) && (forall k :: k in keys ==> Clean(k))
    requires keys == LineKeys(BlockLines(lib, t, 0) + [""])
    ensures PlainKeys(t)
  {
    hide BlockLines, HasKey, KeyOf, Trim, Clean, PlainKey, PlainKeys, Printable, KeysIn, InTree;
    NoKeyOnEmptyLine();
    var bad := set k | k in keys && InTree(t, k) && !PlainKey(k);
    forall k | k in bad ensures exists y :: y in bad && |y| > |k| {
      var l :| l in BlockLines(lib, t, 0) + [""] && HasKey(l) && KeyOf(Trim(l)) == k;
      assert l in BlockLines(lib, t, 0);
      var key := LongerKey(lib, t, keys, l);
      assert key in bad;
    }
    NoLongest(bad);
    forall k | k in keys && InTree(t, k) ensures PlainKey(k) { assert k !in bad; }
    PlainInTree(t, keys);
  }

  /** A key of the tree that comes back is the key of a line printed for a key at least as long. The
      longest that is not plain would have to come from its own line, which does not yield it. */
  lemma {:induction false} PlainKeysNeeded(lib: FloatLib, t: Any, text: string)
    requires lib.Sound() && t.Map? && Printable(t) && Printed(lib, t) == text && Parsed(lib, text) == Ok(t)
    ensures PlainKeys(t)
  {
    hide Parsed, BlockLines, Unlines, Split, LineKeys, PlainKeys, Printable, KeysIn, NoBreaks;
    var raws := Split(text, '\n');
    SplitParts(text, '\n');
    ParsedKeysIn(lib, text);
    ParsedNoBreaks(lib, text);
    if !OneLine(lib, t) { BrokenTree(lib, t); }
    KeysClean(raws);
    CleanLines(lib, t, LineKeys(raws));
    SplitUnlines(BlockLines(lib, t, 0));
    NoneBad(lib, t, LineKeys(raws));
  }

  lemma NoKeyOnEmptyLine()
    ensures !HasKey("")
  {
  }

  lemma CleanLines(lib: FloatLib, t: Any, keys: set<string>)
    requires t.Map? && Printable(t) && OneLine(lib, t) && KeysIn(t, keys) && forall k :: k in keys ==> Clean(k)
    ensures Unbroken(BlockLines(lib, t, 0))
  {
    CleanUnbroken(t, keys);
    KeyLinesUnbroken(lib, t, KeyList(t.m.Keys), 0);
  }

  lemma {:induction false} CleanUnbroken(v: Any, keys: set<string>)
    requires KeysIn(v, keys) && forall k :: k in keys ==> Clean(k)
    ensures KeysUnbroken(v)
    decreases v
  {
    if v.Map? {
      forall k | k in v.m ensures '\n' !in k && KeysUnbroken(v.m[k]) { CleanUnbroken(v.m[k], keys); }
    }
  }

  /** A clean key that is not plain is not read from its own line, but a shorter one. */
  lemma OwnLine(key: string, rest: string, d: nat)
    requires Clean(key) && HasKey(Pad(d) + (key + ":" + rest))
    ensures var r := KeyOf(Trim(Pad(d) + (key + ":" + rest)));
            if PlainKey(key) then r == key else |r| < |key|
  {
    hide Trim, KeyOf, HasKey, Pad, Find;
    PrintedLineKey(key, rest, d);
    if PlainKey(key) { LineParts(key, rest, d); }
  }

  /** The round trip: parsing the text printed for a tree gives back exactly that tree if and only if
      every key is plain and every leaf is safe. */
  lemma {:induction false} RoundTrip(lib: FloatLib, t: Any, text: string)
    requires t.Map? && Printable(t) && lib.Sound() && Printed(lib, t) == text
    ensures PlainKeys(t) && AllSafe(lib, t) <==> Parsed(lib, text) == Ok(t)
  {
    hide Parsed, Printed, PlainKeys, Printable, AllSafe;
    if Parsed(lib, text) == Ok(t) { PlainKeysNeeded(lib, t, text); }
    if PlainKeys(t) { PlainRoundTrip(lib, t, text); }
  }
}
