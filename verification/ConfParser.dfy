/** The line-by-line YAML parser, `yamlParser.Parse`. */
module ConfParser {
  import opened Types
  import opened Text
  import opened GoMaps
  import opened YamlScalars

  function Indent(raw: string): (n: nat)
    ensures n <= |raw|
  {
    if raw != "" && (raw[0] == ' ' || raw[0] == '\t') then 1 + Indent(raw[1..]) else 0
  }

  predicate QuoteChar(c: char) { c == '"' || c == '\'' }

  /** bytes.Trim with the cutset of both quote characters. */
  function TrimQuotes(s: string): string
    decreases |s|
  {
    if s != "" && QuoteChar(s[0]) then TrimQuotes(s[1..])
    else if s != "" && QuoteChar(s[|s| - 1]) then TrimQuotes(s[..|s| - 1])
    else s
  }

  /** Leave every open map whose line was indented at least as far. */
  function PopTo(z: Zipper, indent: nat): Zipper
    decreases |z.frames|
  {
    if z.frames != [] && indent <= z.frames[|z.frames| - 1].indent then PopTo(Up(z), indent) else z
  }

  predicate Skipped(line: string) { line == "" || line[0] == '#' }

  function KeyOf(line: string): string {
    TrimQuotes(Trim(line[..Find(line, ':')]))
  }

  function ValueOf(line: string): string
    requires Find(line, ':') < |line|
  {
    Trim(StripComment(Trim(line[Find(line, ':') + 1..])))
  }

  /** What one key and its value text do to the open path. */
  function Bind(lib: FloatLib, z: Zipper, key: string, value: string, indent: nat): Outcome<Zipper> {
    if value == "" then Ok(Zipper(z.frames + [Frame(z.cur, key, indent)], map[]))
    else
      match ParseValue(lib, value)
      case Panic => Panic
      case Ok(v) => Ok(z.(cur := z.cur[key := v]))
  }

  function ReadLine(lib: FloatLib, z: Zipper, raw: string): Outcome<Zipper> {
    var line := Trim(raw);
    if Skipped(line) then Ok(z)
    else
      var z' := PopTo(z, Indent(raw));
      if Find(line, ':') == |line| then Ok(z')
      else Bind(lib, z', KeyOf(line), ValueOf(line), Indent(raw))
  }

  type Reader = (Zipper, string) -> Outcome<Zipper>

  /** Reading one line after the other, up to the first panic. */
  function Fold(read: Reader, z: Zipper, lines: seq<string>): Outcome<Zipper>
    decreases |lines|
  {
    if lines == [] then Ok(z)
    else
      match read(z, lines[0])
      case Panic => Panic
      case Ok(z') => Fold(read, z', lines[1..])
  }

  function LineReader(lib: FloatLib): Reader {
    (z, raw) => ReadLine(lib, z, raw)
  }

  function ReadLines(lib: FloatLib, z: Zipper, lines: seq<string>): Outcome<Zipper> {
    Fold(LineReader(lib), z, lines)
  }

  const EMPTY := Zipper([], map[])

  /** The tree that parsing a text yields, or a panic. */
  function Parsed(lib: FloatLib, text: string): Outcome<Any> {
    match ReadLines(lib, EMPTY, Split(text, '\n'))
    case Panic => Panic
    case Ok(z) => Ok(Map(Root(z)))
  }

  lemma {:induction false} FoldAppend(read: Reader, z: Zipper, a: seq<string>, b: seq<string>)
    ensures Fold(read, z, a + b) == match Fold(read, z, a) case Panic => Panic case Ok(z') => Fold(read, z', b)
    decreases |a|
  {
    if a == [] {
      assert a + b == b;
    } else {
      assert (a + b)[1..] == a[1..] + b;
      match read(z, a[0])
      case Panic =>
      case Ok(z') => FoldAppend(read, z', a[1..], b);
    }
  }

  lemma FoldNothing(read: Reader, z: Zipper)
    ensures Fold(read, z, []) == Ok(z)
  {
  }

  lemma FoldFirst(read: Reader, z: Zipper, line: string, rest: seq<string>)
    ensures Fold(read, z, [line] + rest) == match read(z, line) case Panic => Panic case Ok(z') => Fold(read, z', rest)
  {
    assert ([line] + rest)[1..] == rest;
  }

  lemma FoldOne(read: Reader, z: Zipper, line: string)
    ensures Fold(read, z, [line]) == read(z, line)
  {
    assert [line][1..] == [];
  }

  lemma FoldSnoc(read: Reader, z: Zipper, lines: seq<string>, line: string)
    ensures Fold(read, z, lines + [line]) ==
            match Fold(read, z, lines) case Panic => Panic case Ok(z') => read(z', line)
  {
    FoldAppend(read, z, lines, [line]);
    assert [line][1..] == [];
    assert forall y :: Fold(read, y, [line]) == read(y, line);
  }

  lemma PanicStays(read: Reader, z: Zipper, lines: seq<string>, n: nat)
    requires n <= |lines| && Fold(read, z, lines[..n]).Panic?
    ensures Fold(read, z, lines).Panic?
  {
    FoldAppend(read, z, lines[..n], lines[n..]);
    assert lines[..n] + lines[n..] == lines;
  }

  /** What every line keeps, all lines keep. */
  lemma {:induction false} FoldKeeps(read: Reader, inv: Zipper -> bool, z: Zipper, lines: seq<string>)
    requires inv(z)
    requires forall y, l :: inv(y) && l in lines && read(y, l).Ok? ==> inv(read(y, l).value)
    ensures var r := Fold(read, z, lines); r.Ok? ==> inv(r.value)
    decreases |lines|
  {
    if lines != [] {
      match read(z, lines[0])
      case Panic =>
      case Ok(z') => FoldKeeps(read, inv, z', lines[1..]);
    }
  }

  /** If it depends on the line alone whether it panics, all lines together panic as one of them does. */
  lemma {:induction false} FoldPanics(read: Reader, bad: string -> bool, z: Zipper, lines: seq<string>)
    requires forall y, l :: read(y, l).Panic? <==> bad(l)
    ensures Fold(read, z, lines).Panic? <==> exists i :: 0 <= i < |lines| && bad(lines[i])
    decreases |lines|
  {
    if lines != [] {
      match read(z, lines[0])
      case Panic =>
      case Ok(z') =>
        FoldPanics(read, bad, z', lines[1..]);
        assert forall i :: 0 < i < |lines| ==> lines[i] == lines[1..][i - 1];
    }
  }

  // ----- when the parser panics -----

  /** The line carries a key whose value is a single quote character. */
  predicate LoneQuote(raw: string) {
    var line := Trim(raw);
    && !Skipped(line)
    && Find(line, ':') < |line|
    && (ValueOf(line) == "\"" || ValueOf(line) == "'")
  }

  lemma ValueTrimmed(line: string)
    requires Find(line, ':') < |line|
    ensures Trim(ValueOf(line)) == ValueOf(line)
  {
    hide Trim, StripComment, Find, Tight;
    TrimTight(StripComment(Trim(line[Find(line, ':') + 1..])));
    TrimFixed(ValueOf(line));
  }

  lemma ReadLinePanics(lib: FloatLib, z: Zipper, raw: string)
    ensures ReadLine(lib, z, raw).Panic? <==> LoneQuote(raw)
  {
    hide Trim, Find, ParseValue, ValueOf, KeyOf, PopTo;
    var line := Trim(raw);
    if !Skipped(line) && Find(line, ':') < |line| {
      ParseValuePanics(lib, ValueOf(line));
      ValueTrimmed(line);
    }
  }

  /** The parser panics on a text exactly when one of its lines has such a value, wherever it is. */
  lemma {:induction false} ReadLinesPanics(lib: FloatLib, z: Zipper, lines: seq<string>)
    ensures ReadLines(lib, z, lines).Panic? <==> exists i :: 0 <= i < |lines| && LoneQuote(lines[i])
  {
    hide ReadLine, LoneQuote, Fold;
    forall y, l ensures LineReader(lib)(y, l).Panic? <==> LoneQuote(l) { ReadLinePanics(lib, y, l); }
    FoldPanics(LineReader(lib), l => LoneQuote(l), z, lines);
  }

  // ----- the indent stack -----

  /** Recorded indents grow along the path. */
  ghost predicate Indented(z: Zipper) {
    forall i, j :: 0 <= i < j < |z.frames| ==> z.frames[i].indent < z.frames[j].indent
  }

  lemma {:induction false} PopToIndented(z: Zipper, indent: nat)
    requires Indented(z)
    ensures Indented(PopTo(z, indent))
    ensures forall i :: 0 <= i < |PopTo(z, indent).frames| ==> PopTo(z, indent).frames[i].indent < indent
    decreases |z.frames|
  {
    var n := |z.frames|;
    if z.frames != [] {
      if indent <= z.frames[n - 1].indent {
        PopToIndented(Up(z), indent);
      } else {
        forall i | 0 <= i < n ensures z.frames[i].indent < indent {
          assert i == n - 1 || z.frames[i].indent < z.frames[n - 1].indent;
        }
      }
    }
  }

  lemma ReadLineIndented(lib: FloatLib, z: Zipper, raw: string)
    requires Indented(z)
    ensures var r := ReadLine(lib, z, raw); r.Ok? ==> Indented(r.value)
  {
    hide ParseValue, KeyOf, ValueOf, Trim, PopTo;
    PopToIndented(z, Indent(raw));
  }

  /** On any lines at all, the recorded indents stay strictly increasing. */
  lemma {:induction false} ReadLinesIndented(lib: FloatLib, z: Zipper, lines: seq<string>)
    requires Indented(z)
    ensures var r := ReadLines(lib, z, lines); r.Ok? ==> Indented(r.value)
  {
    hide Fold, ReadLine, Indented;
    var inv := (y: Zipper) => Indented(y);
    forall y, l | inv(y) && LineReader(lib)(y, l).Ok? ensures inv(LineReader(lib)(y, l).value) {
      ReadLineIndented(lib, y, l);
    }
    FoldKeeps(LineReader(lib), inv, z, lines);
  }

  // ----- the parser itself -----

  ghost predicate SameIndents(indents: seq<nat>, z: Zipper) {
    |indents| == |z.frames| && forall i :: 0 <= i < |indents| ==> indents[i] == z.frames[i].indent
  }

  /** The index of the first byte that is neither blank nor tab. */
  method CountIndent(raw: string) returns (indent: nat)
    ensures indent == Indent(raw)
  {
    indent := 0;
    while indent < |raw|
      invariant indent <= |raw|
      invariant Indent(raw) == indent + Indent(raw[indent..])
    {
      if raw[indent] != ' ' && raw[indent] != '\t' { break; }
      indent := indent + 1;
    }
  }

  /** Pops both stacks while the line is indented no deeper than the last recorded indent. */
  method PopStacks(mapStack0: seq<Dict>, indentStack0: seq<nat>, current0: Dict, indent: nat,
                   ghost z0: Zipper, ghost closed0: Closed)
    returns (mapStack: seq<Dict>, indentStack: seq<nat>, currentMap: Dict, ghost closed: Closed)
    requires Open(mapStack0 + [current0], z0, closed0) && SameIndents(indentStack0, z0)
    ensures Open(mapStack + [currentMap], PopTo(z0, indent), closed)
    ensures SameIndents(indentStack, PopTo(z0, indent)) && |mapStack| == |indentStack|
    ensures mapStack + [currentMap] <= mapStack0 + [current0]
    ensures mapStack <= mapStack0 && (currentMap == current0 || currentMap in mapStack0)
  {
    hide Open;
    mapStack, indentStack, currentMap, closed := mapStack0, indentStack0, current0, closed0;
    ghost var z := z0;
    OpenLength(mapStack + [currentMap], z, closed);
    while |indentStack| > 0 && indent <= indentStack[|indentStack| - 1]
      invariant Open(mapStack + [currentMap], z, closed)
      invariant SameIndents(indentStack, z) && |mapStack| == |z.frames|
      invariant PopTo(z, indent) == PopTo(z0, indent)
      invariant mapStack + [currentMap] <= mapStack0 + [current0]
      invariant mapStack <= mapStack0 && (currentMap == current0 || currentMap in mapStack0)
      decreases |indentStack|
    {
      ghost var chain := mapStack + [currentMap];
      OpenUp(chain, z, closed);
      closed := closed[currentMap := Map(z.cur)];
      z := Up(z);
      indentStack := indentStack[..|indentStack| - 1];
      if |mapStack| > 0 {
        currentMap := mapStack[|mapStack| - 1];
        mapStack := mapStack[..|mapStack| - 1];
        assert mapStack + [currentMap] == chain[..|chain| - 1];
      }
    }
  }

  method CutAtColon(line: string, colon: nat) returns (key: string, value: string)
    requires colon == Find(line, ':') < |line|
    ensures key == KeyOf(line) && value == ValueOf(line)
  {
    hide Trim, TrimQuotes, StripComment;
    key := TrimQuotes(Trim(line[..colon]));
    var stripped := StripInlineYAMLComment(Trim(line[colon + 1..]));
    value := Trim(stripped);
  }

  /** The parser returns a map that stands for the parsed tree, and panics exactly when a value is
      a lone quote character. */
  method Parse(lib: FloatLib, data: string) returns (r: Outcome<Dict>)
    ensures r.Panic? <==> Parsed(lib, data).Panic?
    ensures r.Ok? ==> fresh(r.value) && Denotes(r.value, Parsed(lib, data).value)
  {
    hide ParseValue, KeyOf, ValueOf, PopTo, Trim, Find, Split, Indent, Open, Root, Up, Denotes, Fold;
    var result := new Dict();
    var lines := Split(data, '\n');
    var currentMap: Dict := result;
    var mapStack: seq<Dict>, indentStack: seq<nat> := [], [];
    ghost var z: Zipper, closed: Closed := EMPTY, map[];
    OpenStart(result);
    assert mapStack + [currentMap] == [result];
    FoldNothing(LineReader(lib), z);

    for n := 0 to |lines|
      invariant ReadLines(lib, EMPTY, lines[..n]) == Ok(z)
      invariant Open(mapStack + [currentMap], z, closed)
      invariant SameIndents(indentStack, z) && |mapStack| == |indentStack|
      invariant (mapStack + [currentMap])[0] == result
      invariant fresh(currentMap) && forall i :: 0 <= i < |mapStack| ==> fresh(mapStack[i])
    {
      assert lines[..n + 1] == lines[..n] + [lines[n]];
      FoldSnoc(LineReader(lib), EMPTY, lines[..n], lines[n]);

      var line := Trim(lines[n]);
      if line == "" || line[0] == '#' { continue; }
      var indent := CountIndent(lines[n]);
      mapStack, indentStack, currentMap, closed :=
        PopStacks(mapStack, indentStack, currentMap, indent, z, closed);
      z := PopTo(z, indent);

      var colon := Find(line, ':');
      if colon == |line| { continue; }
      var key, value := CutAtColon(line, colon);
      ghost var chain := mapStack + [currentMap];

      if value == "" {
        var newMap := BindChild(chain, z, closed, currentMap, key, indent);
        z := Zipper(z.frames + [Frame(z.cur, key, indent)], map[]);
        mapStack := mapStack + [currentMap];
        indentStack := indentStack + [indent];
        currentMap := newMap;
        assert mapStack + [currentMap] == chain + [newMap];
      } else {
        match ParseValue(lib, value)
        case Panic =>
          PanicStays(LineReader(lib), EMPTY, lines, n + 1);
          return Panic;
        case Ok(v) =>
          BindItem(chain, z, closed, currentMap, key, v);
          z := z.(cur := z.cur[key := v]);
      }
    }

    assert lines[..|lines|] == lines;
    OpenDenotes(mapStack + [currentMap], z, closed);
    r := Ok(result);
  }
}
