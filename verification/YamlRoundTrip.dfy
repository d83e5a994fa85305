/** What reading a printed tree gives back: the writer and the parser are inverse exactly on the
    trees whose strings the writer's quoting and escaping do not distort. */
module YamlRoundTrip {
  import opened Types
  import opened Text
  import opened GoMaps
  import opened YamlScalars
  import opened ConfParser
  import opened Export

  // ----- one printed line -----

  /** A key the line format can carry. It may be empty, and may hold inner spaces or hashes. */
  predicate PlainKey(k: string) {
    && ':' !in k && '\n' !in k
    && Tight(k)
    && (k != "" ==> k[0] != '#' && !QuoteChar(k[0]) && !QuoteChar(k[|k| - 1]))
  }

  lemma {:induction false} IndentOfPad(depth: nat, s: string)
    requires s != "" && s[0] != ' ' && s[0] != '\t'
    ensures Indent(Pad(depth) + s) == 2 * depth
  {
    if depth == 0 {
      assert Pad(0) + s == s;
    } else {
      var t := Pad(depth - 1) + s;
      IndentOfPad(depth - 1, s);
      assert Pad(depth) + s == [' ', ' '] + t;
      assert (Pad(depth) + s)[1..] == [' '] + t;
      assert ([' '] + t)[1..] == t;
    }
  }

  /** Trimming a printed line leaves the key, the colon and the rest without trailing space. */
  lemma TrimmedLine(k: string, rest: string, depth: nat)
    requires PlainKey(k)
    ensures Trim(Pad(depth) + (k + ":" + rest)) == k + ":" + TrimRight(rest)
    ensures Indent(Pad(depth) + (k + ":" + rest)) == 2 * depth
  {
    hide TrimRight;
    var body := k + ":" + rest;
    assert body[0] == if k == "" then ':' else k[0];
    assert !IsSpace(body[0]);
    IndentOfPad(depth, body);
    TrimLeftBefore(Pad(depth), body);
    assert TrimLeft(body) == body;
    TrimRightAfter(k + ":", rest);
  }

  lemma TrimQuotesPlain(k: string)
    requires PlainKey(k)
    ensures TrimQuotes(k) == k
  {
  }

  function ValueRead(rest: string): string {
    Trim(StripComment(Trim(rest)))
  }

  /** A printed line reads as its key and the trimmed, comment-stripped rest. */
  lemma LineParts(k: string, rest: string, depth: nat)
    requires PlainKey(k)
    ensures var line := Trim(Pad(depth) + (k + ":" + rest));
            && !Skipped(line) && Find(line, ':') == |k| < |line|
            && KeyOf(line) == k && ValueOf(line) == ValueRead(rest)
  {
    hide Trim, TrimRight, StripComment, Indent;
    TrimmedLine(k, rest, depth);
    var line := k + ":" + TrimRight(rest);
    FindIs(line, ':', |k|);
    assert line[..|k|] == k && line[|k| + 1..] == TrimRight(rest);
    assert Trim(k) == k by { TrimFixed(k); }
    TrimQuotesPlain(k);
    TrimOfTrimRight(rest);
  }

  lemma ReadPrintedLine(lib: FloatLib, z: Zipper, k: string, rest: string, depth: nat)
    requires PlainKey(k)
    ensures ReadLine(lib, z, Pad(depth) + (k + ":" + rest)) ==
            Bind(lib, PopTo(z, 2 * depth), k, ValueRead(rest), 2 * depth)
  {
    hide Trim, Bind, PopTo, KeyOf, ValueOf, ValueRead, Find, Indent;
    LineParts(k, rest, depth);
    TrimmedLine(k, rest, depth);
  }

  // ----- the path after a block -----

  lemma {:induction false} PopToStops(z: Zipper, i: nat)
    ensures var p := PopTo(z, i); p.frames == [] || p.frames[|p.frames| - 1].indent < i
    decreases |z.frames|
  {
    if z.frames != [] && i <= z.frames[|z.frames| - 1].indent { PopToStops(Up(z), i); }
  }

  lemma {:induction false} PopToTwice(z: Zipper, i: nat, j: nat)
    requires i <= j
    ensures PopTo(PopTo(z, j), i) == PopTo(z, i)
    decreases |z.frames|
  {
    if z.frames != [] && j <= z.frames[|z.frames| - 1].indent { PopToTwice(Up(z), i, j); }
  }

  lemma {:induction false} RootIsPopToZero(z: Zipper)
    ensures PopTo(z, 0) == Zipper([], Root(z))
    decreases |z.frames|
  {
    if z.frames != [] { RootIsPopToZero(Up(z)); }
  }

  // ----- leafwise read-back -----

  /** What a printed scalar reads back as; text that trims to nothing opens an empty map. */
  function ReadBack(lib: FloatLib, text: string): Outcome<Any> {
    if ValueRead(text) == "" then Ok(Map(map[])) else ParseValue(lib, ValueRead(text))
  }

  ghost function ReadEntry(lib: FloatLib, v: Any): Outcome<Any>
    requires Printable(v)
    decreases v, 1, 0
  {
    if v.Map? then
      match ReadKeys(lib, v, KeyList(v.m.Keys))
      case Panic => Panic
      case Ok(m) => Ok(Map(m))
    else ReadBack(lib, " " + ScalarText(lib, v))
  }

  ghost function ReadKeys(lib: FloatLib, t: Any, ks: seq<string>): Outcome<map<string, Any>>
    requires t.Map? && Printable(t) && forall k :: k in ks ==> k in t.m
    decreases t, 0, |ks|
  {
    if ks == [] then Ok(map[]) else
    match ReadEntry(lib, t.m[ks[0]])
    case Panic => Panic
    case Ok(a) =>
      match ReadKeys(lib, t, ks[1..])
      case Panic => Panic
      case Ok(m) => Ok(map[ks[0] := a] + m)
  }

  ghost predicate PlainKeys(v: Any) {
    v.Map? ==> forall k :: k in v.m ==> PlainKey(k) && PlainKeys(v.m[k])
  }

  /** `r` is the panic `m` calls for, or a path that, once popped to `indent`, is `z` plus `m`. */
  ghost predicate Added(r: Outcome<Zipper>, z: Zipper, indent: nat, m: Outcome<map<string, Any>>) {
    match m
    case Panic => r.Panic?
    case Ok(e) => r.Ok? && PopTo(r.value, indent) == Zipper(z.frames, z.cur + e)
  }

  ghost function One(k: string, a: Outcome<Any>): Outcome<map<string, Any>> {
    match a case Panic => Panic case Ok(v) => Ok(map[k := v])
  }

  lemma LeafLine(lib: FloatLib, k: string, v: Any, depth: nat)
    requires Printable(v) && !v.Map?
    ensures EntryLines(lib, k, v, depth) == [Pad(depth) + (k + ":" + (" " + ScalarText(lib, v)))]
  {
    hide ScalarText, Pad;
    Associative(Pad(depth), k, ":");
    Associative(Pad(depth), k + ":", " " + ScalarText(lib, v));
  }

  lemma LeafReads(lib: FloatLib, z: Zipper, k: string, v: Any, depth: nat)
    requires Printable(v) && !v.Map? && PlainKey(k)
    ensures Added(ReadLines(lib, z, EntryLines(lib, k, v, depth)), PopTo(z, 2 * depth), 2 * depth,
                  One(k, ReadEntry(lib, v)))
  {
    hide ReadLine, ValueRead, ParseValue, ScalarText;
    var i, p := 2 * depth, PopTo(z, 2 * depth);
    var rest := " " + ScalarText(lib, v);
    var raw := Pad(depth) + (k + ":" + rest);
    PopToStops(z, i);
    ReadPrintedLine(lib, z, k, rest, depth);
    LeafLine(lib, k, v, depth);
    FoldOne(LineReader(lib), z, raw);
    assert ReadLines(lib, z, [raw]) == ReadLine(lib, z, raw);
    hide EntryLines, ReadLines, Fold, Pad, PopTo, PlainKey, Printable;
    if ValueRead(rest) == "" {
      BoundChildPops(p, k, map[], i);
    } else if ParseValue(lib, ValueRead(rest)).Ok? {
      var v := ParseValue(lib, ValueRead(rest)).value;
      assert p.cur[k := v] == p.cur + map[k := v];
    }
  }

  /** The path with a fresh child open under `k`, its line indented by `i`. */
  function Child(p: Zipper, k: string, i: nat): Zipper {
    Zipper(p.frames + [Frame(p.cur, k, i)], map[])
  }

  /** Popping out of that child gives its parent the child's entries under the key. */
  lemma BoundChildPops(p: Zipper, k: string, m: map<string, Any>, i: nat)
    requires p.frames == [] || p.frames[|p.frames| - 1].indent < i
    ensures PopTo(Zipper(Child(p, k, i).frames, m), i) == Zipper(p.frames, p.cur + map[k := Map(m)])
  {
    var q := Zipper(Child(p, k, i).frames, m);
    assert p.cur[k := Map(m)] == p.cur + map[k := Map(m)];
    assert Up(q) == Zipper(p.frames, p.cur + map[k := Map(m)]);
    assert PopTo(q, i) == PopTo(Up(q), i);
  }

  /** Reading the lines of a block adds what each of its entries reads back as, and leaves the path
      as it was: the parser pops lazily, so this is seen after popping to the block's indent. */
  lemma {:induction false} BlockReads(lib: FloatLib, z: Zipper, t: Any, ks: seq<string>, depth: nat)
    requires t.Map? && Printable(t) && PlainKeys(t) && forall k :: k in ks ==> k in t.m
    ensures Added(ReadLines(lib, z, KeyLines(lib, t, ks, depth)), PopTo(z, 2 * depth), 2 * depth,
                  ReadKeys(lib, t, ks))
    decreases t, 0, |ks|
  {
    hide ReadLine, Fold, LineReader, ReadEntry, EntryLines, Added;
    if ks == [] {
      EmptyBlock(lib, z, 2 * depth);
    } else {
      var k := ks[0];
      var v := t.m[k];
      EntryReads(lib, z, k, v, depth);
      FoldAppend(LineReader(lib), z, EntryLines(lib, k, v, depth), KeyLines(lib, t, ks[1..], depth));
      var r := ReadLines(lib, z, EntryLines(lib, k, v, depth));
      if r.Ok? {
        BlockReads(lib, r.value, t, ks[1..], depth);
      }
      AddedTwice(r, if r.Ok? then ReadLines(lib, r.value, KeyLines(lib, t, ks[1..], depth)) else r,
                 PopTo(z, 2 * depth), 2 * depth, k, ReadEntry(lib, v), ReadKeys(lib, t, ks[1..]));
    }
  }

  lemma EmptyBlock(lib: FloatLib, z: Zipper, i: nat)
    ensures Added(ReadLines(lib, z, []), PopTo(z, i), i, Ok(map[]))
  {
    assert PopTo(z, i).cur + map[] == PopTo(z, i).cur;
  }

  /** One entry and then the rest add up. */
  lemma AddedTwice(r: Outcome<Zipper>, r': Outcome<Zipper>, p: Zipper, i: nat, k: string,
                   a: Outcome<Any>, m: Outcome<map<string, Any>>)
    requires Added(r, p, i, One(k, a))
    requires r.Ok? ==> Added(r', PopTo(r.value, i), i, m)
    requires r.Panic? ==> r'.Panic?
    ensures Added(r', p, i, match a case Panic => Panic case Ok(v) =>
                              match m case Panic => Panic case Ok(e) => Ok(map[k := v] + e))
  {
    if a.Ok? && m.Ok? {
      assert p.cur + map[k := a.value] + m.value == p.cur + (map[k := a.value] + m.value);
    }
  }

  /** The line of a nested map opens an empty child. */
  lemma HeaderReads(lib: FloatLib, z: Zipper, k: string, depth: nat, lines: seq<string>)
    requires PlainKey(k)
    ensures ReadLines(lib, z, [Pad(depth) + k + ":"] + lines) ==
            ReadLines(lib, Child(PopTo(z, 2 * depth), k, 2 * depth), lines)
  {
    hide ReadLine, PopTo, ValueRead;
    var raw := Pad(depth) + k + ":";
    assert raw == Pad(depth) + (k + ":" + "") by {
      assert k + ":" + "" == k + ":";
      Associative(Pad(depth), k, ":");
    }
    ReadPrintedLine(lib, z, k, "", depth);
    assert ValueRead("") == "" by { NothingRead(); }
    FoldFirst(LineReader(lib), z, raw, lines);
    assert LineReader(lib)(z, raw) == ReadLine(lib, z, raw);
    hide Fold;
  }

  lemma NothingRead()
    ensures ValueRead("") == ""
  {
  }

  lemma ChildPops(r: Zipper, p: Zipper, k: string, e: map<string, Any>, i: nat, j: nat)
    requires i < j && (p.frames == [] || p.frames[|p.frames| - 1].indent < i)
    requires PopTo(r, j) == Zipper(Child(p, k, i).frames, map[] + e)
    ensures PopTo(r, i) == Zipper(p.frames, p.cur + map[k := Map(e)])
  {
    hide PopTo;
    assert map[] + e == e;
    PopToTwice(r, i, j);
    BoundChildPops(p, k, e, i);
  }

  /** Popping out of a child that has read its block binds the child in its parent. */
  lemma ChildAdded(r: Outcome<Zipper>, z: Zipper, k: string, i: nat, j: nat,
                   m: Outcome<map<string, Any>>)
    requires i < j && Added(r, PopTo(Child(PopTo(z, i), k, i), j), j, m)
    ensures Added(r, PopTo(z, i), i, One(k, match m case Panic => Panic case Ok(e) => Ok(Map(e))))
  {
    var q := Child(PopTo(z, i), k, i);
    assert PopTo(q, j) == q;
    hide PopTo;
    if m.Ok? {
      PopToStops(z, i);
      ChildPops(r.value, PopTo(z, i), k, m.value, i, j);
    }
  }

  lemma {:induction false} EntryReads(lib: FloatLib, z: Zipper, k: string, v: Any, depth: nat)
    requires Printable(v) && PlainKey(k) && PlainKeys(v)
    ensures Added(ReadLines(lib, z, EntryLines(lib, k, v, depth)), PopTo(z, 2 * depth), 2 * depth,
                  One(k, ReadEntry(lib, v)))
    decreases v, 1, 0
  {
    hide ReadLine, ReadLines, ReadKeys, Added, KeyLines, PopTo, PlainKey, One;
    if !v.Map? {
      LeafReads(lib, z, k, v, depth);
    } else {
      var q := Child(PopTo(z, 2 * depth), k, 2 * depth);
      var lines := BlockLines(lib, v, depth + 1);
      HeaderReads(lib, z, k, depth, lines);
      BlockReads(lib, q, v, KeyList(v.m.Keys), depth + 1);
      ChildAdded(ReadLines(lib, q, lines), z, k, 2 * depth, 2 * (depth + 1),
                 ReadKeys(lib, v, KeyList(v.m.Keys)));
    }
  }

  // ----- from lines to text -----

  /** No printed scalar breaks its line. Only an unquoted string can: escaping hides line breaks. */
  ghost predicate OneLine(lib: FloatLib, v: Any)
    requires Printable(v)
  {
    if v.Map? then forall k :: k in v.m ==> OneLine(lib, v.m[k]) else '\n' !in ScalarText(lib, v)
  }

  ghost predicate Unbroken(lines: seq<string>) {
    forall l :: l in lines ==> '\n' !in l
  }

  ghost predicate KeysUnbroken(v: Any) {
    v.Map? ==> forall k :: k in v.m ==> '\n' !in k && KeysUnbroken(v.m[k])
  }

  lemma UnbrokenLine(depth: nat, k: string, rest: string)
    requires '\n' !in k && '\n' !in rest
    ensures '\n' !in Pad(depth) + k + ":" && '\n' !in Pad(depth) + k + ":" + (" " + rest)
  {
  }

  lemma UnbrokenAppend(a: seq<string>, b: seq<string>)
    requires Unbroken(a) && Unbroken(b)
    ensures Unbroken(a + b)
  {
  }

  lemma UnbrokenOne(l: string)
    requires '\n' !in l
    ensures Unbroken([l])
  {
  }

  lemma {:induction false} KeyLinesUnbroken(lib: FloatLib, t: Any, ks: seq<string>, depth: nat)
    requires t.Map? && Printable(t) && KeysUnbroken(t) && OneLine(lib, t) && forall k :: k in ks ==> k in t.m
    ensures Unbroken(KeyLines(lib, t, ks, depth))
    decreases t, |ks|
  {
    hide KeyList, ScalarText, Pad, Unbroken;
    if ks == [] {
      NoLinesUnbroken();
    } else {
      var k, v := ks[0], t.m[ks[0]];
      if v.Map? {
        KeyLinesUnbroken(lib, v, KeyList(v.m.Keys), depth + 1);
        UnbrokenLine(depth, k, "");
        UnbrokenOne(Pad(depth) + k + ":");
        UnbrokenAppend([Pad(depth) + k + ":"], BlockLines(lib, v, depth + 1));
      } else {
        UnbrokenLine(depth, k, ScalarText(lib, v));
        UnbrokenOne(Pad(depth) + k + ":" + (" " + ScalarText(lib, v)));
      }
      KeyLinesUnbroken(lib, t, ks[1..], depth);
      UnbrokenAppend(EntryLines(lib, k, v, depth), KeyLines(lib, t, ks[1..], depth));
    }
  }

  lemma NoLinesUnbroken()
    ensures Unbroken([])
  {
  }

  lemma {:induction false} PlainUnbroken(v: Any)
    requires PlainKeys(v)
    ensures KeysUnbroken(v)
    decreases v
  {
    if v.Map? {
      forall k | k in v.m ensures '\n' !in k && KeysUnbroken(v.m[k]) {
        assert PlainKey(k);
        PlainUnbroken(v.m[k]);
      }
    }
  }

  lemma {:induction false} SplitUnlines(lines: seq<string>)
    requires Unbroken(lines)
    ensures Split(Unlines(lines), '\n') == lines + [""]
  {
    if lines == [] {
      SplitNone("", '\n');
    } else {
      SplitUnlines(lines[1..]);
      SplitFirst(lines[0], '\n', Unlines(lines[1..]));
      assert lines + [""] == [lines[0]] + (lines[1..] + [""]);
    }
  }

  /** Parsing a printed tree reads every leaf back from its own text, and nothing else changes:
      maps of any depth and width come back, empty ones included. */
  lemma ParsedPrinted(lib: FloatLib, t: Any)
    requires t.Map? && Printable(t) && PlainKeys(t) && OneLine(lib, t)
    ensures Parsed(lib, Printed(lib, t)) == ReadEntry(lib, t)
  {
    hide ReadLine, KeyLines, ReadKeys, Unlines, PopTo, PlainKeys, Printable, OneLine;
    var lines := BlockLines(lib, t, 0);
    PlainUnbroken(t);
    KeyLinesUnbroken(lib, t, KeyList(t.m.Keys), 0);
    SplitUnlines(lines);
    BlockReads(lib, EMPTY, t, KeyList(t.m.Keys), 0);
    var r := ReadLines(lib, EMPTY, lines);
    RootIsPopToZero(EMPTY);
    FoldSnoc(LineReader(lib), EMPTY, lines, "");
    if r.Ok? {
      EmptyLineSkipped(lib, r.value);
      RootIsPopToZero(r.value);
      var e := ReadKeys(lib, t, KeyList(t.m.Keys)).value;
      assert map[] + e == e;
    }
  }

  lemma EmptyLineSkipped(lib: FloatLib, z: Zipper)
    ensures ReadLine(lib, z, "") == Ok(z)
  {
  }

  // ----- exactly which leaves survive -----

  /** A string survives quoted when escaping leaves it alone, and unquoted when it has no space at
      an end, no line break, no quote character at both ends and is no keyword in any case. */
  predicate SafeString(lib: FloatLib, s: string) {
    if Quotes(lib, s) then forall c :: c in s ==> !Escapable(c)
    else Tight(s) && '\n' !in s && !Between(s, '"') && !Between(s, '\'') && !Keyword(s)
  }

  predicate SafeScalar(lib: FloatLib, v: Any) {
    match v
    case Str(s) => SafeString(lib, s)
    case Float(b) => Atoi(lib.format(b)).None? && lib.parse(lib.format(b)) == Some(b)
    case _ => true
  }

  lemma TrimTwice(s: string)
    ensures Trim(Trim(s)) == Trim(s) && |Trim(s)| <= |s| && (Trim(s) != s ==> |Trim(s)| < |s|)
  {
    TrimTight(s);
    TrimFixed(Trim(s));
    var l := TrimLeft(s);
    if |Trim(s)| == |s| { assert l == s; }
  }

  /** Text without a hash, after the separating space, is read trimmed. */
  lemma PlainTextRead(text: string)
    requires '#' !in text
    ensures ValueRead(" " + text) == Trim(text)
  {
    TrimLeftBefore(" ", text);
    var t := Trim(text);
    TrimWithin(text, '#');
    NoHashNoComment(t);
    TrimTwice(text);
  }

  lemma WordRead(text: string)
    requires Word(text)
    ensures ValueRead(" " + text) == text && Trim(text) == text
    ensures !Between(text, '"') && !Between(text, '\'')
  {
    assert text[0] in text && text[|text| - 1] in text;
    PlainTextRead(text);
    TrimFixed(text);
  }

  lemma IntTextIsWord(i: int)
    ensures Word(IntText(i)) && !Keyword(IntText(i))
  {
    var n := NatText(if i < 0 then -i else i);
    forall c | c in IntText(i) ensures c == '-' || IsDigit(c) {
      if i < 0 && c != '-' { assert c in n; }
    }
    assert IntText(i)[0] == '-' || IsDigit(IntText(i)[0]);
    assert Lower(IntText(i))[0] == IntText(i)[0];
  }

  lemma IntReads(lib: FloatLib, i: int64)
    ensures ReadBack(lib, " " + IntText(i)) == Ok(Int(i))
  {
    hide IntText, Lower, Trim, ValueRead, Word;
    assert IntText(i) != "" by { IntTextIsWord(i); NonEmptyWord(IntText(i)); }
    IntTextIsWord(i);
    WordRead(IntText(i));
    AtoiOfIntText(i);
  }

  lemma NonEmptyWord(s: string)
    requires Word(s)
    ensures s != ""
  {
  }

  lemma FloatReads(lib: FloatLib, b: Bits64)
    requires lib.Sound()
    ensures ReadBack(lib, " " + lib.format(b)) == Ok(Float(b)) <==> SafeScalar(lib, Float(b))
  {
    hide Lower, Trim, ValueRead, Word, Atoi;
    var text := lib.format(b);
    assert Word(text) && !Keyword(text);
    NonEmptyWord(text);
    WordRead(text);
    assert Atoi(text).Some? ==> lib.parse(text).Some?;
  }

  lemma QuotedReads(lib: FloatLib, s: string)
    ensures ReadBack(lib, " " + Quoted(s)) == Ok(Str(s)) <==> forall c :: c in s ==> !Escapable(c)
  {
    hide StripComment, Trim, Escape, Lower;
    var t := Quoted(s);
    assert Trim(" " + t) == t by { TrimSpaced(t); TrimFixed(t); }
    EscapingProtects(s, Quoted(s));
    assert Trim(t) == t by { TrimFixed(t); }
    assert t[1..|t| - 1] == Escape(s);
    EscapeFixed(s);
  }

  lemma TrimSpaced(t: string)
    ensures Trim(" " + t) == Trim(t)
  {
    TrimLeftBefore(" ", t);
  }

  lemma UnquotedReads(lib: FloatLib, s: string)
    requires lib.Sound() && !Quotes(lib, s) && '\n' !in s
    ensures ReadBack(lib, " " + s) == Ok(Str(s)) <==> SafeString(lib, s)
  {
    hide Trim, Lower, ValueRead, Atoi;
    forall i | 0 <= i < |s| ensures s[i] != '#' { assert !Special(s[i]) && Special('#'); }
    PlainTextRead(s);
    TrimFixed(s);
    TrimTwice(s);
    assert Atoi(s).Some? ==> lib.parse(s).Some?;
  }

  lemma WordsRead(lib: FloatLib)
    ensures ReadBack(lib, " null") == Ok(Nil)
    ensures ReadBack(lib, " true") == Ok(Bool(true)) && ReadBack(lib, " false") == Ok(Bool(false))
  {
    hide Trim, ValueRead, Atoi, Lower;
    LowerWords();
    assert " " + "null" == " null" && " " + "true" == " true" && " " + "false" == " false";
    assert Word("null") && Word("true") && Word("false");
    WordRead("null");
    WordRead("true");
    WordRead("false");
  }

  lemma LowerWords()
    ensures Lower("null") == "null" && Lower("true") == "true" && Lower("false") == "false"
  {
  }

  /** A printed scalar reads back as itself exactly when it is safe. */
  lemma ScalarReads(lib: FloatLib, v: Any)
    requires lib.Sound() && Scalar(v) && '\n' !in ScalarText(lib, v)
    ensures ReadBack(lib, " " + ScalarText(lib, v)) == Ok(v) <==> SafeScalar(lib, v)
  {
    hide ReadBack;
    WordsRead(lib);
    match v
    case Str(s) => if Quotes(lib, s) { QuotedReads(lib, s); } else { UnquotedReads(lib, s); }
    case Int(i) => IntReads(lib, i);
    case Float(b) => FloatReads(lib, b);
    case Bool(b) => assert " " + "true" == " true" && " " + "false" == " false";
    case Nil => assert " " + "null" == " null";
  }

  ghost predicate AllSafe(lib: FloatLib, v: Any)
    requires Printable(v)
  {
    if v.Map? then forall k :: k in v.m ==> AllSafe(lib, v.m[k]) else SafeScalar(lib, v)
  }

  lemma {:induction false} KeysRead(lib: FloatLib, t: Any, ks: seq<string>)
    requires t.Map? && Printable(t) && forall k :: k in ks ==> k in t.m
    ensures var r := ReadKeys(lib, t, ks);
            && (r.Panic? <==> exists k :: k in ks && ReadEntry(lib, t.m[k]).Panic?)
            && (r.Ok? ==> (forall k :: k in r.value <==> k in ks) &&
                          forall k :: k in ks ==> ReadEntry(lib, t.m[k]) == Ok(r.value[k]))
    decreases |ks|
  {
    hide ReadEntry;
    if ks != [] {
      KeysRead(lib, t, ks[1..]);
      assert forall k :: k in ks <==> k == ks[0] || k in ks[1..];
    }
  }

  /** A tree reads back as itself exactly when each of its leaves does. */
  lemma {:induction false} EntrySurvives(lib: FloatLib, v: Any)
    requires lib.Sound() && Printable(v) && OneLine(lib, v)
    ensures ReadEntry(lib, v) == Ok(v) <==> AllSafe(lib, v)
    decreases v
  {
    if v.Map? {
      hide ReadKeys, ReadBack, ScalarText;
      KeysRead(lib, v, KeyList(v.m.Keys));
      forall k | k in v.m
        ensures ReadEntry(lib, v.m[k]) == Ok(v.m[k]) <==> AllSafe(lib, v.m[k])
      {
        EntrySurvives(lib, v.m[k]);
      }
      SurvivesByKey(lib, v);
    } else {
      hide ReadBack, ScalarText;
      ScalarReads(lib, v);
    }
  }

  lemma SurvivesByKey(lib: FloatLib, v: Any)
    requires v.Map? && Printable(v)
    ensures ReadEntry(lib, v) == Ok(v) <==> forall k :: k in v.m ==> ReadEntry(lib, v.m[k]) == Ok(v.m[k])
  {
    hide ReadKeys, ReadBack, ScalarText, Lists, KeyList;
    var ks := KeyList(v.m.Keys);
    KeysRead(lib, v, ks);
    var r := ReadKeys(lib, v, ks);
    assert forall k :: k in ks <==> k in v.m;
    assert ReadEntry(lib, v) == match r case Panic => Panic case Ok(m) => Ok(Map(m));
    if r.Ok? && forall k :: k in v.m ==> ReadEntry(lib, v.m[k]) == Ok(v.m[k]) {
      assert r.value == v.m;
    }
  }

  // ----- parsed strings never hold line breaks -----

  ghost predicate NoBreaks(v: Any) {
    match v
    case Str(s) => '\n' !in s
    case Map(m) => forall k :: k in m ==> NoBreaks(m[k])
    case _ => true
  }

  ghost predicate PathNoBreaks(z: Zipper) {
    NoBreaks(Map(z.cur)) && forall i :: 0 <= i < |z.frames| ==> NoBreaks(Map(z.frames[i].rest))
  }

  lemma TrimWithin(s: string, c: char)
    requires c !in s
    ensures c !in Trim(s)
  {
    var l := TrimLeft(s);
    TrimLeftSuffix(s);
    assert c !in l by { assert l == s[|s| - |l|..]; }
    TrimRightPrefix(l);
  }

  lemma ValueNoBreaks(line: string)
    requires '\n' !in line && Find(line, ':') < |line|
    ensures '\n' !in ValueOf(line)
  {
    hide Trim, CommentStart, Find;
    var rest := line[Find(line, ':') + 1..];
    TrimWithin(rest, '\n');
    var t := Trim(rest);
    assert '\n' !in t[..CommentStart(t)];
    TrimWithin(t[..CommentStart(t)], '\n');
    TrimWithin(StripComment(t), '\n');
  }

  lemma ParseValueNoBreaks(lib: FloatLib, text: string)
    requires '\n' !in text
    ensures var r := ParseValue(lib, text); r.Ok? ==> NoBreaks(r.value)
  {
    hide Trim, Lower, Atoi;
    TrimWithin(text, '\n');
  }

  lemma {:induction false} PopToNoBreaks(z: Zipper, i: nat)
    requires PathNoBreaks(z)
    ensures PathNoBreaks(PopTo(z, i))
    decreases |z.frames|
  {
    if z.frames != [] && i <= z.frames[|z.frames| - 1].indent {
      assert PathNoBreaks(Up(z));
      PopToNoBreaks(Up(z), i);
    }
  }

  lemma ReadLineNoBreaks(lib: FloatLib, z: Zipper, raw: string)
    requires PathNoBreaks(z) && '\n' !in raw
    ensures var r := ReadLine(lib, z, raw); r.Ok? ==> PathNoBreaks(r.value)
  {
    hide Trim, PopTo, ValueOf, KeyOf, ParseValue, Find;
    PopToNoBreaks(z, Indent(raw));
    var line := Trim(raw);
    TrimWithin(raw, '\n');
    if Find(line, ':') < |line| {
      ValueNoBreaks(line);
      ParseValueNoBreaks(lib, ValueOf(line));
    }
  }

  lemma StartNoBreaks()
    ensures PathNoBreaks(EMPTY)
  {
  }

  lemma RootNoBreaks(z: Zipper)
    requires PathNoBreaks(z) && z.frames == []
    ensures NoBreaks(Map(z.cur))
  {
  }

  /** Whatever text is parsed, no string in the result holds a line break. */
  lemma ParsedNoBreaks(lib: FloatLib, text: string)
    ensures var r := Parsed(lib, text); r.Ok? ==> NoBreaks(r.value)
  {
    hide Split, Fold, PopTo, PathNoBreaks, ReadLine;
    var lines := Split(text, '\n');
    SplitParts(text, '\n');
    var inv := (y: Zipper) => PathNoBreaks(y);
    forall y, l | inv(y) && l in lines && LineReader(lib)(y, l).Ok? ensures inv(LineReader(lib)(y, l).value) {
      ReadLineNoBreaks(lib, y, l);
    }
    assert inv(EMPTY) by { StartNoBreaks(); }
    FoldKeeps(LineReader(lib), inv, EMPTY, lines);
    var r := ReadLines(lib, EMPTY, Split(text, '\n'));
    if r.Ok? {
      PopToNoBreaks(r.value, 0);
      RootIsPopToZero(r.value);
      RootNoBreaks(PopTo(r.value, 0));
    }
  }

  lemma {:induction false} BrokenTree(lib: FloatLib, v: Any)
    requires lib.Sound() && Printable(v) && !OneLine(lib, v)
    ensures !AllSafe(lib, v) && !NoBreaks(v)
    decreases v
  {
    if v.Map? {
      var k :| k in v.m && !OneLine(lib, v.m[k]);
      BrokenTree(lib, v.m[k]);
    } else {
      ScalarBroken(lib, v);
    }
  }

  lemma ScalarBroken(lib: FloatLib, v: Any)
    requires lib.Sound() && Scalar(v) && '\n' in ScalarText(lib, v)
    ensures v.Str? && !Quotes(lib, v.s) && '\n' in v.s
  {
    hide Lower, Quotes, Escape, IntText;
    assert v.Float? ==> Word(lib.format(v.bits));
    match v
    case Str(s) => if Quotes(lib, s) { EscapeOneLine(s); }
    case Int(i) => IntTextIsWord(i);
    case _ =>
  }

  /** With plain keys, a tree comes back if and only if every leaf is safe. */
  lemma {:induction false} PlainRoundTrip(lib: FloatLib, t: Any, text: string)
    requires t.Map? && Printable(t) && PlainKeys(t) && lib.Sound() && Printed(lib, t) == text
    ensures AllSafe(lib, t) <==> Parsed(lib, text) == Ok(t)
  {
    hide Parsed, Printed, PlainKeys, Printable, ReadEntry;
    if OneLine(lib, t) {
      ParsedPrinted(lib, t);
      EntrySurvives(lib, t);
    } else {
      BrokenTree(lib, t);
      ParsedNoBreaks(lib, text);
    }
  }
}
