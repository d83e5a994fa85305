/** Concrete inputs: what they give, mostly where the code does less than its comments say. */
module Examples {
  import opened Types
  import opened Text
  import opened YamlScalars
  import opened ConfParser
  import opened Export
  import opened YamlRoundTrip
  import YamlKeys
  import Decimal
  import DottedKeys
  import GoMaps
  import Nesting
  import Snapshots

  /** The line `k: "` makes the parser panic, whatever came before. */
  lemma LoneQuoteLine(lib: FloatLib, z: GoMaps.Zipper)
    ensures ReadLine(lib, z, "k: \"").Panic?
  {
    hide Trim, StripComment, KeyOf, ValueOf, Find, ReadLine, ValueRead;
    var rest := " \"";
    assert "k: \"" == Pad(0) + ("k" + ":" + rest);
    LineParts("k", rest, 0);
    LoneQuoteRead();
    ReadLinePanics(lib, z, "k: \"");
  }

  lemma LoneQuoteRead()
    ensures ValueRead(" \"") == "\""
  {
    hide Trim, StripComment;
    TrimSpaced("\"");
    TrimFixed("\"");
    assert " " + "\"" == " \"";
    NoHashNoComment("\"");
  }

  /** A quote inside a quoted string comes back with the backslash that escaping put before it. */
  lemma InnerQuote(lib: FloatLib)
    ensures Quotes(lib, "#\"") && ReadBack(lib, " " + Quoted("#\"")) != Ok(Str("#\""))
  {
    hide ReadBack, Quoted;
    var s := "#\"";
    assert s[0] == '#' && Special(s[0]);
    assert s[1] == '"' && s[1] in s && Escapable(s[1]);
    QuotedReads(lib, s);
  }

  /** The string TRUE is printed bare and read as a boolean. */
  lemma UpperKeyword(lib: FloatLib)
    requires lib.parse("TRUE").None?
    ensures !Quotes(lib, "TRUE") && ReadBack(lib, " TRUE") == Ok(Bool(true))
  {
    UpperTrue();
    hide Word, Lower, Trim, ValueRead, Atoi, PlainKeyword, EdgeBlank, Special;
    WordRead("TRUE");
    assert " " + "TRUE" == " TRUE";
  }

  lemma UpperWord()
    ensures Word("TRUE") && Lower("TRUE") == "true"
  {
  }

  lemma UpperTrue()
    ensures Word("TRUE") && Lower("TRUE") == "true" && !PlainKeyword("TRUE") && !EdgeBlank("TRUE")
    ensures forall i :: 0 <= i < |"TRUE"| ==> !Special("TRUE"[i])
  {
    UpperWord();
    hide Word, Lower;
    var s := "TRUE";
    forall i | 0 <= i < |s| ensures !Special(s[i]) { assert s[i] == 'T' || s[i] == 'R' || s[i] == 'U' || s[i] == 'E'; }
    assert s[0] == 'T' && s != "true" && s != "false" && s != "null";
    assert s != "yes" && s != "no" && s != "on" && s != "off";
    assert s != "~" by { assert |s| == 4; }
  }

  /** A key with a leading hash is printed as a comment. */
  lemma HashKey(lib: FloatLib, text: string)
    requires lib.Sound() && text == Printed(lib, Map(map["#a" := Int(1)]))
    ensures Parsed(lib, text) != Ok(Map(map["#a" := Int(1)]))
  {
    var t := Map(map["#a" := Int(1)]);
    assert "#a" in t.m && !PlainKey("#a");
    YamlKeys.RoundTrip(lib, t, text);
  }

  /** A small tree as it is printed: keys in order, two spaces a level, one space after the colon. */
  lemma SmallTree(lib: FloatLib)
    ensures var t := Map(map["b" := Map(map["d" := Nil, "c" := Int(-5)]), "a" := Bool(true)]);
            Printable(t) && Printed(lib, t) == "a: true\nb:\n  c: -5\n  d: null\n"
  {
    hide BlockLines, Unlines, IntText;
    OuterBlock(lib);
    FourLines("a: true", "b:", "  c: -5", "  d: null");
    assert "a: true" + "\n" + "b:" + "\n" + "  c: -5" + "\n" + "  d: null" + "\n" ==
           "a: true\nb:\n" + "  c: -5\n  d: null\n";
  }

  lemma OuterBlock(lib: FloatLib)
    ensures var t := Map(map["b" := Map(map["d" := Nil, "c" := Int(-5)]), "a" := Bool(true)]);
            Printable(t) && BlockLines(lib, t, 0) == ["a: true", "b:", "  c: -5", "  d: null"]
  {
    hide KeyList, ScalarText, BlockLines, IntText;
    var inner := Map(map["d" := Nil, "c" := Int(-5)]);
    var t := Map(map["b" := inner, "a" := Bool(true)]);
    InnerBlock(lib);
    ScalarTexts(lib, "", -5, 0);
    TwoKeys("a", "b", t.m.Keys);
    TwoEntries(lib, t, "a", "b", 0);
    TwoPads();
    assert Pad(0) + "a" + ":" + (" " + "true") == "a: true" && Pad(0) + "b" + ":" == "b:";
  }

  lemma InnerBlock(lib: FloatLib)
    ensures var t := Map(map["d" := Nil, "c" := Int(-5)]);
            Printable(t) && BlockLines(lib, t, 1) == ["  c: -5", "  d: null"]
  {
    hide KeyList, ScalarText, BlockLines, IntText;
    var t := Map(map["d" := Nil, "c" := Int(-5)]);
    ScalarTexts(lib, "", -5, 0);
    MinusFive();
    TwoPads();
    TwoKeys("c", "d", t.m.Keys);
    TwoEntries(lib, t, "c", "d", 1);
    assert Pad(1) + "d" + ":" + (" " + "null") == "  d: null";
    assert Pad(1) + "c" + ":" + (" " + "-5") == "  c: -5";
  }

  lemma TwoPads()
    ensures Pad(0) == "" && Pad(1) == "  "
  {
    assert Pad(1) == "  " + Pad(0);
  }

  lemma TwoEntries(lib: FloatLib, t: Any, a: string, b: string, depth: nat)
    requires t.Map? && Printable(t) && KeyList(t.m.Keys) == [a, b]
    ensures a in t.m && b in t.m
    ensures BlockLines(lib, t, depth) == EntryLines(lib, a, t.m[a], depth) + EntryLines(lib, b, t.m[b], depth)
  {
    hide KeyList, EntryLines;
    assert a in [a, b] && b in [a, b] && [a, b][1..] == [b] && [b][1..] == [];
    assert KeyLines(lib, t, [b], depth) == EntryLines(lib, b, t.m[b], depth) + KeyLines(lib, t, [], depth);
  }

  lemma FourLines(a: string, b: string, c: string, d: string)
    ensures Unlines([a, b, c, d]) == a + "\n" + b + "\n" + c + "\n" + d + "\n"
  {
    assert [a, b, c, d][1..] == [b, c, d] && [b, c, d][1..] == [c, d] && [c, d][1..] == [d] && [d][1..] == [];
    assert Unlines([d]) == d + "\n";
    assert Unlines([c, d]) == c + "\n" + Unlines([d]);
    assert Unlines([b, c, d]) == b + "\n" + Unlines([c, d]);
    assert Unlines([a, b, c, d]) == a + "\n" + Unlines([b, c, d]);
  }

  lemma TwoKeys(a: string, b: string, keys: set<string>)
    requires |a| == 1 && |b| == 1 && a[0] < b[0] && keys == {a, b}
    ensures KeyList(keys) == [a, b]
  {
    hide Less;
    assert "" + a == a && "" + b == b;
    LessFirstDifference("", a, b);
    assert Lists([a, b], keys);
    ListsUnique(KeyList(keys), [a, b], keys);
  }

  lemma MinusFive()
    ensures IntText(-5) == "-5"
  {
  }

  /** A value that stands where another key's map should be: the exporter steps over it, so the second
      key loses its first part, while the state's nester puts a map in its place. */
  lemma BlockedKey(kvs: seq<(string, Any)>)
    requires kvs == [("a", Int(1)), ("a.b", Int(2))]
    ensures Nesting.BuildAll(kvs) == map["a" := Int(1), "b" := Int(2)]
    ensures Nesting.NestAll(kvs) == map["a" := Map(map["b" := Int(2)])]
  {
    TwoParts();
    hide DottedKeys.Parts, Split;
    assert kvs[..1] == [("a", Int(1))] && kvs[..1][..0] == [];
    assert ["a"][1..] == [] && ["a", "b"][1..] == ["b"];
    assert Nesting.BuildAll(kvs[..1]) == map["a" := Int(1)];
    assert Nesting.NestAll(kvs[..1]) == map["a" := Int(1)];
    assert DottedKeys.BuildPut(map["a" := Int(1)], ["a", "b"], Int(2)) ==
           DottedKeys.BuildPut(map["a" := Int(1)], ["b"], Int(2));
    assert DottedKeys.Put(map[], ["b"], Int(2)) == map["b" := Int(2)];
  }

  lemma TwoParts()
    ensures Split("a", '.') == ["a"] && Split("a.b", '.') == ["a", "b"]
    ensures DottedKeys.Parts("a") == ["a"] && DottedKeys.Parts("a.b") == ["a", "b"]
  {
    SplitNone("a", '.');
    SplitNone("b", '.');
    SplitFirst("a", '.', "b");
    assert "a" + ['.'] + "b" == "a.b" && "a" + "." + "b" == "a.b";
    DottedKeys.PartsWithoutDot("a");
    DottedKeys.PartsWithoutDot("b");
    DottedKeys.PartsJoined("a", "b");
  }

  /** A single old snapshot is counted as pruned and kept. */
  lemma OldSnapshotKept(s: Snapshots.Snapshot, cutoff: int)
    requires s.timestamp <= cutoff
    ensures Snapshots.OldCount([s], cutoff) == 1
    ensures Snapshots.Pruned(Snapshots.Log([s], s.id), cutoff) == Snapshots.Log([s], s.id)
  {
    assert [s][1..] == [];
  }

  /** Minus one half is printed as one half, and a fraction that rounds up to a unit as a tenth. */
  lemma HalfAndNearlyOne()
    ensures Decimal.FloatText(-0.5) == "0.5" && Decimal.FloatText(0.9999999) == "0.1"
  {
    assert Decimal.Trunc(-0.5) == 0 && Decimal.Frac(-0.5) == 0.5;
    assert Decimal.Trunc(500000.5) == 500000;
    assert Decimal.Micros(-0.5) == 500000;
    assert Decimal.Frac(0.9999999) == 0.9999999 && Decimal.Trunc(1000000.4) == 1000000;
    assert Decimal.Micros(0.9999999) == 1000000;
    Digits();
  }

  /** Just above the threshold a point is printed with nothing behind it, at the threshold none. */
  lemma BarePoint()
    ensures Decimal.FloatText(0.0000002) == "0." && Decimal.FloatText(0.0000001) == "0"
  {
    assert Decimal.Frac(0.0000002) == 0.0000002 && Decimal.Trunc(0.0000002) == 0;
    assert Decimal.Frac(0.0000001) == 0.0000001 && Decimal.Trunc(0.0000001) == 0;
    assert Decimal.Micros(0.0000002) == 0 by { assert Decimal.Trunc(0.7) == 0; }
    Digits();
    AllZeros();
    hide Decimal.TrimZeros, Decimal.PadZeros;
    assert Decimal.FloatText(0.0000002) == "0" + ("." + "");
  }

  lemma AllZeros()
    ensures Decimal.TrimZeros(Decimal.PadZeros("0")) == ""
  {
    assert Decimal.PadZeros("000") == "000000" by {
      assert "0" + "000" == "0000" && "0" + "0000" == "00000" && "0" + "00000" == "000000";
      assert Decimal.PadZeros("00000") == "000000";
    }
    assert "0" + "0" == "00" && "0" + "00" == "000";
    assert forall r: string :: r <= "000000" && r != "" ==> r[|r| - 1] == '0';
  }

  lemma Digits()
    ensures IntText(0) == "0" && IntText(500000) == "500000" && IntText(1000000) == "1000000"
    ensures Decimal.TrimZeros(Decimal.PadZeros("500000")) == "5"
    ensures Decimal.TrimZeros(Decimal.PadZeros("1000000")) == "1"
  {
    hide NatText, Decimal.TrimZeros;
    OneDigit();
    Zeros(5);
    Zeros(1);
    TimesTen(100000);
    assert "5" + "00000" == "500000" && "1" + "00000" == "100000" && "100000" + "0" == "1000000";
    assert Decimal.TrimZeros("1000000") == Decimal.TrimZeros("100000") by { OneZero("100000"); }
  }

  lemma OneDigit()
    ensures NatText(0) == "0" && NatText(5) == "5" && NatText(1) == "1"
    ensures Decimal.TrimZeros("5") == "5" && Decimal.TrimZeros("1") == "1"
  {
  }

  lemma TimesTen(n: nat)
    requires n > 0
    ensures NatText(10 * n) == NatText(n) + "0"
  {
  }

  lemma OneZero(s: string)
    ensures Decimal.TrimZeros(s + "0") == Decimal.TrimZeros(s)
  {
    assert (s + "0")[..|s|] == s;
  }

  lemma Zeros(n: nat)
    requires n > 0
    ensures NatText(100000 * n) == NatText(n) + "00000"
    ensures Decimal.TrimZeros(NatText(n) + "00000") == Decimal.TrimZeros(NatText(n))
  {
    hide NatText, Decimal.TrimZeros;
    var t := NatText(n);
    TimesTen(n);
    TimesTen(10 * n);
    TimesTen(100 * n);
    TimesTen(1000 * n);
    TimesTen(10000 * n);
    OneZero(t);
    OneZero(t + "0");
    OneZero(t + "00");
    OneZero(t + "000");
    OneZero(t + "0000");
    assert t + "0" + "0" == t + "00" && t + "00" + "0" == t + "000" && t + "000" + "0" == t + "0000";
    assert t + "0000" + "0" == t + "00000";
  }
}
