/** Scalars of the YAML reader and writer: comment stripping, classification, quoting, escaping. */
module YamlScalars {
  import opened Types
  import opened Text

  /** strconv.ParseFloat and the %v formatting of a float64, which are not modelled further. */
  datatype FloatLib = FloatLib(parse: string -> Option<Bits64>, format: Bits64 -> string) {
    /** What the reader and writer rely on: an integer literal is a float literal, and a formatted
        float is a word without spaces, comment or quote characters that is not a YAML keyword. */
    ghost predicate Sound() {
      && (forall s :: Atoi(s).Some? ==> parse(s).Some?)
      && (forall b :: Word(format(b)) && !Keyword(format(b)))
    }
  }

  predicate Word(s: string) {
    s != "" && forall c :: c in s ==> !IsSpace(c) && c != '#' && c != '"' && c != '\'' && c != '\n'
  }

  // ----- comment stripping -----

  /** The three flags of the comment stripper after it has read a prefix. */
  datatype Quoting = Quoting(single: bool, double: bool, escaped: bool) {
    function Next(c: char): Quoting {
      if escaped then this.(escaped := false)
      else if c == '\\' then this.(escaped := true)
      else if c == '\'' && !double then this.(single := !single)
      else if c == '"' && !single then this.(double := !double)
      else this
    }

    /** A hash read in this state starts a comment. */
    predicate Outside() { !single && !double && !escaped }
  }

  function Scan(s: string): Quoting {
    if s == "" then Quoting(false, false, false) else Scan(s[..|s| - 1]).Next(s[|s| - 1])
  }

  lemma ScanSnoc(s: string, c: char)
    ensures Scan(s + [c]) == Scan(s).Next(c)
  {
    assert (s + [c])[..|s|] == s;
  }

  predicate CommentAt(s: string, i: nat)
    requires i < |s|
  {
    s[i] == '#' && Scan(s[..i]).Outside()
  }

  /** The index of the first hash outside quotes and escapes, or |s|. */
  function CommentStart(s: string, from: nat := 0): (i: nat)
    requires from <= |s|
    ensures from <= i <= |s|
    ensures i < |s| ==> CommentAt(s, i)
    ensures forall j :: from <= j < i ==> !CommentAt(s, j)
    decreases |s| - from
  {
    if from == |s| || CommentAt(s, from) then from else CommentStart(s, from + 1)
  }

  function StripComment(s: string): string {
    Trim(s[..CommentStart(s)])
  }

  method StripInlineYAMLComment(s: string) returns (r: string)
    ensures r == StripComment(s)
  {
    var inSingle, inDouble, escaped := false, false, false;
    for i := 0 to |s|
      invariant Scan(s[..i]) == Quoting(inSingle, inDouble, escaped)
      invariant forall j :: 0 <= j < i ==> !CommentAt(s, j)
    {
      var c := s[i];
      assert s[..i + 1][..i] == s[..i];
      if escaped {
        escaped := false;
      } else if c == '\\' {
        escaped := true;
      } else if c == '\'' && !inDouble {
        inSingle := !inSingle;
      } else if c == '"' && !inSingle {
        inDouble := !inDouble;
      } else if c == '#' && !inSingle && !inDouble {
        assert CommentAt(s, i) && CommentStart(s) == i;
        return Trim(s[..i]);
      }
    }
    assert CommentStart(s) == |s|;
    assert s[..|s|] == s;
    r := Trim(s);
  }

  function Count(s: string, c: char): nat {
    if s == "" then 0 else Count(s[..|s| - 1], c) + if s[|s| - 1] == c then 1 else 0
  }

  /** Without backslashes and single quotes, "outside" means after an even number of double
      quotes. */
  lemma {:induction false} OutsideByParity(s: string)
    requires forall i :: 0 <= i < |s| ==> s[i] != '\\' && s[i] != '\''
    ensures Scan(s) == Quoting(false, Count(s, '"') % 2 == 1, false)
  {
    if s != "" { OutsideByParity(s[..|s| - 1]); }
  }

  lemma NoHashNoComment(s: string)
    requires '#' !in s
    ensures StripComment(s) == Trim(s)
  {
    assert CommentStart(s) == |s| by {
      forall i | 0 <= i < |s| ensures !CommentAt(s, i) { assert s[i] in s; }
    }
    assert s[..|s|] == s;
  }

  // ----- escaping -----

  function EscapeChar(c: char): string {
    match c
    case '"' => "\\\""
    case '\\' => "\\\\"
    case '\n' => "\\n"
    case '\r' => "\\r"
    case '\t' => "\\t"
    case _ => [c]
  }

  function Escape(s: string): string {
    if s == "" then "" else Escape(s[..|s| - 1]) + EscapeChar(s[|s| - 1])
  }

  method EscapeString(s: string) returns (buf: string)
    ensures buf == Escape(s)
  {
    buf := "";
    for i := 0 to |s|
      invariant buf == Escape(s[..i])
    {
      assert s[..i + 1][..i] == s[..i];
      buf := buf + EscapeChar(s[i]);
    }
    assert s[..|s|] == s;
  }

  /** The characters that escaping rewrites; the reader never undoes it. */
  predicate Escapable(c: char) {
    c == '"' || c == '\\' || c == '\n' || c == '\r' || c == '\t'
  }

  /** Escaping leaves a string alone exactly when it holds none of those characters. */
  lemma {:induction false} EscapeFixed(s: string)
    ensures |Escape(s)| >= |s|
    ensures |Escape(s)| == |s| <==> forall i :: 0 <= i < |s| ==> !Escapable(s[i])
    ensures |Escape(s)| == |s| ==> Escape(s) == s
  {
    if s != "" {
      hide EscapeChar;
      var p, c := s[..|s| - 1], s[|s| - 1];
      EscapeFixed(p);
      EscapeCharFixed(c);
      assert s == p + [c];
    }
  }

  lemma EscapeCharFixed(c: char)
    ensures |EscapeChar(c)| == if Escapable(c) then 2 else 1
    ensures !Escapable(c) ==> EscapeChar(c) == [c]
  {
  }

  /** What an escape stands for: the usual letters, and any other character for itself. */
  function Unescape(s: string): string {
    if |s| < 2 || s[0] != '\\' then (if s == "" then "" else [s[0]] + Unescape(s[1..]))
    else
      var c := if s[1] == 'n' then '\n' else if s[1] == 'r' then '\r' else if s[1] == 't' then '\t' else s[1];
      [c] + Unescape(s[2..])
  }

  /** Escaping loses nothing: reading the escapes back gives the string. */
  lemma {:induction false} UnescapeEscape(s: string)
    ensures Unescape(Escape(s)) == s
    decreases |s|
  {
    if s != "" {
      hide Escape, Unescape, EscapeChar;
      EscapeAppend([s[0]], s[1..]);
      EscapeWords(s[0]);
      assert [s[0]] + s[1..] == s;
      UnescapeEscape(s[1..]);
      UnescapeFirst(s[0], Escape(s[1..]));
    }
  }

  lemma UnescapeFirst(c: char, rest: string)
    ensures Unescape(EscapeChar(c) + rest) == [c] + Unescape(rest)
  {
    var e := EscapeChar(c);
    assert (e + rest)[|e|..] == rest;
  }

  /** The two characters that stand for each escapable one, and the one for any other. */
  lemma EscapeWords(c: char)
    ensures Escape([c]) == EscapeChar(c)
    ensures Escape("\"") == "\\\"" && Escape("\\") == "\\\\"
    ensures Escape("\n") == "\\n" && Escape("\r") == "\\r" && Escape("\t") == "\\t"
    ensures c !in "\"\\\n\r\t" ==> Escape([c]) == [c]
  {
    assert forall d: char :: [d][..0] == "" && Escape("") == "";
    assert forall d: char :: Escape([d]) == EscapeChar(d);
  }

  lemma {:induction false} EscapeAppend(a: string, b: string)
    ensures Escape(a + b) == Escape(a) + Escape(b)
    decreases |b|
  {
    hide EscapeChar;
    if b == "" {
      assert a + b == a;
    } else {
      assert (a + b)[..|a + b| - 1] == a + b[..|b| - 1];
      EscapeAppend(a, b[..|b| - 1]);
    }
  }

  lemma {:induction false} EscapeOneLine(s: string)
    ensures '\n' !in Escape(s)
  {
    if s != "" {
      EscapeOneLine(s[..|s| - 1]);
      EscapeCharOneLine(s[|s| - 1]);
      hide EscapeChar;
    }
  }

  lemma EscapeCharOneLine(c: char)
    ensures '\n' !in EscapeChar(c)
  {
  }

  lemma ReadEscapeChar(t: string, c: char, k: nat)
    requires Scan(t) == Quoting(false, true, false) && k <= |EscapeChar(c)|
    ensures var q := Scan(t + EscapeChar(c)[..k]);
            q.double && !q.single && (k == 0 || k == |EscapeChar(c)| ==> !q.escaped)
  {
    var e := EscapeChar(c);
    if k == 0 {
      assert t + e[..0] == t;
    } else {
      assert t + e[..1] == t + [e[0]];
      ScanSnoc(t, e[0]);
      if k == 2 {
        assert t + e[..2] == t + e[..1] + [e[1]];
        ScanSnoc(t + e[..1], e[1]);
      }
    }
  }

  lemma {:induction false} ScanEscaped(t: string, s: string)
    requires Scan(t) == Quoting(false, true, false)
    ensures Scan(t + Escape(s)) == Quoting(false, true, false)
    decreases |s|
  {
    hide Scan, EscapeChar;
    if s == "" {
      assert t + Escape(s) == t;
    } else {
      var p, e := Escape(s[..|s| - 1]), EscapeChar(s[|s| - 1]);
      ScanEscaped(t, s[..|s| - 1]);
      assert Scan(t + p + e[..|e|]) == Quoting(false, true, false) by {
        ReadEscapeChar(t + p, s[|s| - 1], |e|);
      }
      assert t + Escape(s) == t + p + e[..|e|];
    }
  }

  lemma ScanOpening()
    ensures Scan("\"") == Quoting(false, true, false)
  {
    ScanSnoc("", '"');
    assert "\"" == "" + ['"'];
  }

  /** While it reads an escaped string after its opening quote, the stripper stays inside. */
  lemma {:induction false} InsideEscaped(s: string, j: nat)
    requires j <= |Escape(s)|
    ensures Scan("\"" + Escape(s)[..j]).double
  {
    hide Scan, EscapeChar;
    if s == "" || j == |Escape(s)| {
      assert Escape(s)[..j] == Escape(s);
      ScanOpening();
      ScanEscaped("\"", s);
    } else {
      var p, e := Escape(s[..|s| - 1]), EscapeChar(s[|s| - 1]);
      if j <= |p| {
        assert Escape(s)[..j] == p[..j];
        InsideEscaped(s[..|s| - 1], j);
      } else {
        ScanOpening();
        ScanEscaped("\"", s[..|s| - 1]);
        ReadEscapeChar("\"" + p, s[|s| - 1], j - |p|);
        assert Escape(s)[..j] == p + e[..j - |p|];
        assert "\"" + Escape(s)[..j] == "\"" + p + e[..j - |p|];
      }
    }
  }

  function Quoted(s: string): string {
    "\"" + Escape(s) + "\""
  }

  /** A printed, quoted string passes the comment stripper unchanged, whatever it holds. */
  lemma EscapingProtects(s: string, t: string)
    requires t == Quoted(s)
    ensures StripComment(t) == t
  {
    forall i | 0 <= i < |t|
      ensures !CommentAt(t, i)
    {
      if 0 < i && i < |t| - 1 {
        assert t[..i] == "\"" + Escape(s)[..i - 1];
        InsideEscaped(s, i - 1);
      }
    }
    assert CommentStart(t) == |t|;
    assert t[..|t|] == t;
    TrimFixed(t);
  }

  // ----- classification -----

  /** strings.ToLower on the letters of the keywords; no other character folds onto them. */
  function LowerChar(c: char): char {
    if 'A' <= c <= 'Z' then (c as int + 32) as char else c
  }

  function Lower(s: string): (r: string)
    ensures |r| == |s|
  {
    seq(|s|, i requires 0 <= i < |s| => LowerChar(s[i]))
  }

  /** Each ASCII capital becomes its small letter, and nothing else changes. */
  lemma LowerLetters(s: string, i: nat)
    requires i < |s|
    ensures s[i] !in "ABCDEFGHIJKLMNOPQRSTUVWXYZ" ==> Lower(s)[i] == s[i]
    ensures forall n :: 0 <= n < 26 && s[i] == "ABCDEFGHIJKLMNOPQRSTUVWXYZ"[n] ==>
              Lower(s)[i] == "abcdefghijklmnopqrstuvwxyz"[n]
  {
    var capitals := "ABCDEFGHIJKLMNOPQRSTUVWXYZ";
    assert forall n :: 0 <= n < 26 ==> capitals[n] as int == 'A' as int + n;
    assert forall n :: 0 <= n < 26 ==> "abcdefghijklmnopqrstuvwxyz"[n] as int == 'a' as int + n;
    if 'A' <= s[i] <= 'Z' { assert s[i] == capitals[s[i] as int - 'A' as int]; }
  }

  predicate TrueWord(s: string) { Lower(s) == "true" || Lower(s) == "yes" || Lower(s) == "on" }
  predicate FalseWord(s: string) { Lower(s) == "false" || Lower(s) == "no" || Lower(s) == "off" }
  predicate NullWord(s: string) { Lower(s) == "null" || s == "~" }
  predicate Keyword(s: string) { TrueWord(s) || FalseWord(s) || NullWord(s) }

  /** The text starts and ends with the quote character `q`; it may be that one character. */
  predicate Between(s: string, q: char) {
    s != "" && s[0] == q && s[|s| - 1] == q
  }

  predicate Scalar(v: Any) {
    v.Nil? || v.Bool? || v.Int? || v.Float? || v.Str?
  }

  /** parseValue. A lone quote character makes the slice bounds cross, which panics. */
  function ParseValue(lib: FloatLib, text: string): (r: Outcome<Any>)
    ensures r.Ok? ==> Scalar(r.value)
  {
    var s := Trim(text);
    if Between(s, '"') || Between(s, '\'') then
      if |s| == 1 then Panic else Ok(Str(s[1..|s| - 1]))
    else if TrueWord(s) then Ok(Bool(true))
    else if FalseWord(s) then Ok(Bool(false))
    else if NullWord(s) then Ok(Nil)
    else if Atoi(s).Some? then Ok(Int(Atoi(s).value))
    else if lib.parse(s).Some? then Ok(Float(lib.parse(s).value))
    else Ok(Str(s))
  }

  lemma ParseValuePanics(lib: FloatLib, text: string)
    ensures ParseValue(lib, text).Panic? <==> Trim(text) == "\"" || Trim(text) == "'"
  {
  }

  // ----- printing -----

  predicate Special(c: char) {
    c in ":#{}[],&*?|-<>=!%@"
  }

  predicate PlainKeyword(s: string) {
    s in ["true", "false", "null", "yes", "no", "on", "off", "~"]
  }

  predicate EdgeBlank(s: string) {
    s != "" && (s[0] == ' ' || s[|s| - 1] == ' ' || s[0] == '\t' || s[|s| - 1] == '\t')
  }

  predicate Quotes(lib: FloatLib, s: string) {
    || s == ""
    || (exists i :: 0 <= i < |s| && Special(s[i]))
    || PlainKeyword(s)
    || lib.parse(s).Some?
    || EdgeBlank(s)
  }

  method NeedsQuoting(lib: FloatLib, s: string) returns (quote: bool)
    ensures quote <==> Quotes(lib, s)
    ensures quote <==>
              || s == "" || lib.parse(s).Some?
              || (exists i :: 0 <= i < |s| && s[i] in ":#{}[],&*?|-<>=!%@")
              || s in ["true", "false", "null", "yes", "no", "on", "off", "~"]
              || s[0] == ' ' || s[0] == '\t' || s[|s| - 1] == ' ' || s[|s| - 1] == '\t'
  {
    if s == "" { return true; }
    for i := 0 to |s|
      invariant forall j :: 0 <= j < i ==> !Special(s[j])
    {
      if Special(s[i]) { return true; }
    }
    return PlainKeyword(s) || lib.parse(s).Some? || EdgeBlank(s);
  }

  /** The text that writeYAML puts after the colon, without its line end. */
  function ScalarText(lib: FloatLib, v: Any): string
    requires Scalar(v)
  {
    match v
    case Str(s) => if Quotes(lib, s) then Quoted(s) else s
    case Int(i) => IntText(i)
    case Float(b) => lib.format(b)
    case Bool(b) => if b then "true" else "false"
    case Nil => "null"
  }

  /** The words, and the quotes that a string gets or does not get. */
  lemma ScalarTexts(lib: FloatLib, s: string, i: int64, b: Bits64)
    ensures ScalarText(lib, Nil) == "null"
    ensures ScalarText(lib, Bool(true)) == "true" && ScalarText(lib, Bool(false)) == "false"
    ensures ScalarText(lib, Int(i)) == IntText(i) && ScalarText(lib, Float(b)) == lib.format(b)
    ensures ScalarText(lib, Str(s)) == if Quotes(lib, s) then "\"" + Escape(s) + "\"" else s
  {
  }
}
