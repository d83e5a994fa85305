/** The byte and string helpers of the Go standard library that the parsers and printers call. */
module Text {
  import opened Types

  // ----- white space (bytes.TrimSpace, strings.TrimSpace) -----

  /** The Unicode White_Space characters beyond ASCII, as ranges. */
  const WIDE_SPACES: seq<(char, char)> := [
    ('\U{0085}', '\U{0085}'), ('\U{00A0}', '\U{00A0}'), ('\U{1680}', '\U{1680}'), ('\U{2000}', '\U{200A}'),
    ('\U{2028}', '\U{2029}'), ('\U{202F}', '\U{202F}'), ('\U{205F}', '\U{205F}'), ('\U{3000}', '\U{3000}')]

  predicate IsWideSpace(c: char, from: nat := 0)
    decreases |WIDE_SPACES| - from
  {
    from < |WIDE_SPACES| && (WIDE_SPACES[from].0 <= c <= WIDE_SPACES[from].1 || IsWideSpace(c, from + 1))
  }

  predicate IsSpace(c: char) {
    if c <= '~' then '\t' <= c <= '\r' || c == ' ' else IsWideSpace(c)
  }

  /** The 25 characters with the Unicode property White_Space. */
  lemma SpaceCharacters(c: char)
    ensures IsSpace(c) <==>
              || c in " \t\n\r\U{000B}\U{000C}\U{0085}\U{00A0}\U{1680}"
              || c in "\U{2000}\U{2001}\U{2002}\U{2003}\U{2004}\U{2005}\U{2006}\U{2007}\U{2008}\U{2009}\U{200A}"
              || c in "\U{2028}\U{2029}\U{202F}\U{205F}\U{3000}"
  {
    assert IsSpace(c) && c > '~' ==>
      || IsWideSpace(c, 4) || WIDE_SPACES[0].0 <= c <= WIDE_SPACES[0].1 || WIDE_SPACES[1].0 <= c <= WIDE_SPACES[1].1
      || WIDE_SPACES[2].0 <= c <= WIDE_SPACES[2].1 || WIDE_SPACES[3].0 <= c <= WIDE_SPACES[3].1;
  }

  function TrimLeft(s: string): (r: string)
    ensures r != "" ==> !IsSpace(r[0])
    ensures |r| <= |s|
  {
    if s != "" && IsSpace(s[0]) then TrimLeft(s[1..]) else s
  }

  function TrimRight(s: string): (r: string)
    ensures r != "" ==> !IsSpace(r[|r| - 1])
    ensures |r| <= |s|
  {
    if s != "" && IsSpace(s[|s| - 1]) then TrimRight(s[..|s| - 1]) else s
  }

  /** What trimming leaves on the left is the end of the text. */
  lemma {:induction false} TrimLeftSuffix(s: string)
    ensures TrimLeft(s) == s[|s| - |TrimLeft(s)|..]
    decreases |s|
  {
    if s != "" && IsSpace(s[0]) { TrimLeftSuffix(s[1..]); }
  }

  /** And on the right, its beginning. */
  lemma {:induction false} TrimRightPrefix(s: string)
    ensures TrimRight(s) <= s
    decreases |s|
  {
    if s != "" && IsSpace(s[|s| - 1]) { TrimRightPrefix(s[..|s| - 1]); }
  }

  function Trim(s: string): string {
    TrimRight(TrimLeft(s))
  }

  /** Neither end of `s` is a space. */
  predicate Tight(s: string) {
    s != "" ==> !IsSpace(s[0]) && !IsSpace(s[|s| - 1])
  }

  lemma TrimTight(s: string)
    ensures Tight(Trim(s))
    ensures Trim(s) == "" || TrimLeft(s) != ""
  {
    var l := TrimLeft(s);
    TrimRightPrefix(l);
    if TrimRight(l) != "" {
      assert TrimRight(l)[0] == l[0];
    }
  }

  /** A text is its own trim exactly when it is tight. */
  lemma TrimFixed(s: string)
    ensures Trim(s) == s <==> Tight(s)
  {
    TrimTight(s);
  }

  lemma {:induction false} TrimRightAfter(a: string, b: string)
    requires a != "" && !IsSpace(a[|a| - 1])
    ensures TrimRight(a + b) == a + TrimRight(b)
    decreases |b|
  {
    if b == "" {
      assert a + b == a;
    } else if IsSpace(b[|b| - 1]) {
      assert (a + b)[..|a + b| - 1] == a + b[..|b| - 1];
      TrimRightAfter(a, b[..|b| - 1]);
    } else {
      assert (a + b)[|a + b| - 1] == b[|b| - 1];
    }
  }

  lemma {:induction false} TrimLeftBefore(a: string, b: string)
    requires forall c :: c in a ==> IsSpace(c)
    ensures TrimLeft(a + b) == TrimLeft(b)
    decreases |a|
  {
    if a == "" {
      assert a + b == b;
    } else {
      assert (a + b)[1..] == a[1..] + b;
      TrimLeftBefore(a[1..], b);
    }
  }

  /** Trimming the right end first changes nothing. */
  lemma {:induction false} TrimOfTrimRight(s: string)
    ensures Trim(TrimRight(s)) == Trim(s)
    decreases |s|
  {
    if s != "" && IsSpace(s[|s| - 1]) {
      var p := s[..|s| - 1];
      TrimOfTrimRight(p);
      TrimDropsLastSpace(s);
    } else {
      assert TrimRight(s) == s;
    }
  }

  lemma {:induction false} TrimDropsLastSpace(s: string)
    requires s != "" && IsSpace(s[|s| - 1])
    ensures Trim(s) == Trim(s[..|s| - 1])
    decreases |s|
  {
    var p := s[..|s| - 1];
    if !IsSpace(s[0]) {
      assert TrimLeft(s) == s && TrimLeft(p) == p;
    } else if |s| > 1 {
      var q := s[1..];
      assert q[..|q| - 1] == p[1..];
      assert TrimLeft(p) == TrimLeft(p[1..]);
      TrimDropsLastSpace(q);
    }
  }

  lemma Associative<T>(a: seq<T>, b: seq<T>, c: seq<T>)
    ensures a + (b + c) == a + b + c
  {
  }

  // ----- searching and splitting -----

  /** The first index of `c`, or |s|. */
  function Find(s: string, c: char): (i: nat)
    ensures i <= |s|
    ensures i < |s| ==> s[i] == c
    ensures forall j :: 0 <= j < i ==> s[j] != c
  {
    if s == "" || s[0] == c then 0 else 1 + Find(s[1..], c)
  }

  lemma FindIs(s: string, c: char, i: nat)
    requires i < |s| && s[i] == c && forall j :: 0 <= j < i ==> s[j] != c
    ensures Find(s, c) == i
  {
    var f := Find(s, c);
    assert !(f < i);
    assert !(i < f);
  }

  /** strings.Split on a one-character separator. */
  function Split(s: string, sep: char): (parts: seq<string>)
    ensures |parts| >= 1
  {
    var i := Find(s, sep);
    if i == |s| then [s] else [s[..i]] + Split(s[i + 1..], sep)
  }

  lemma {:induction false} SplitParts(s: string, sep: char)
    ensures forall p :: p in Split(s, sep) ==> sep !in p
  {
    var i := Find(s, sep);
    if i < |s| { SplitParts(s[i + 1..], sep); }
  }

  lemma SplitFirst(a: string, sep: char, b: string)
    requires sep !in a
    ensures Split(a + [sep] + b, sep) == [a] + Split(b, sep)
  {
    var s := a + [sep] + b;
    FindIs(s, sep, |a|);
    assert s[..|a|] == a && s[|a| + 1..] == b;
  }

  lemma SplitNone(a: string, sep: char)
    requires sep !in a
    ensures Split(a, sep) == [a]
  {
  }

  // ----- decimal integers (strconv.Itoa, strconv.Atoi) -----

  predicate IsDigit(c: char) { '0' <= c <= '9' }

  predicate AllDigits(s: string) {
    forall i :: 0 <= i < |s| ==> IsDigit(s[i])
  }

  function DigitValue(c: char): nat
    requires IsDigit(c)
  {
    c as int - '0' as int
  }

  function DigitChar(d: nat): (c: char)
    requires d < 10
    ensures IsDigit(c) && DigitValue(c) == d && c == "0123456789"[d]
  {
    ('0' as int + d) as char
  }

  function DigitsValue(s: string): nat
    requires AllDigits(s)
  {
    if s == "" then 0 else 10 * DigitsValue(s[..|s| - 1]) + DigitValue(s[|s| - 1])
  }

  function NatText(n: nat): (s: string)
    ensures s != "" && AllDigits(s)
  {
    if n < 10 then [DigitChar(n)] else NatText(n / 10) + [DigitChar(n % 10)]
  }

  function IntText(i: int): string {
    if i < 0 then "-" + NatText(-i) else NatText(i)
  }

  lemma {:induction false} NatTextValue(n: nat)
    ensures DigitsValue(NatText(n)) == n
  {
    if n < 10 {
      assert NatText(n)[..0] == "";
    } else {
      NatTextValue(n / 10);
      assert NatText(n)[..|NatText(n)| - 1] == NatText(n / 10);
    }
  }

  const MIN_INT := -0x8000_0000_0000_0000
  const MAX_INT := 0x7fff_ffff_ffff_ffff

  /** strconv.Atoi for a 64-bit int: optional sign, digits only, range checked. */
  function Atoi(s: string): Option<int64> {
    var signed := s != "" && (s[0] == '-' || s[0] == '+');
    var digits := if signed then s[1..] else s;
    if digits == "" || !AllDigits(digits) then None
    else
      var n: int := if signed && s[0] == '-' then 0 - DigitsValue(digits) else DigitsValue(digits);
      if MIN_INT <= n <= MAX_INT then Some(n) else None
  }

  /** An optional sign, then at least one decimal digit and nothing else, with a value in range. Any
      text is such a sign, perhaps empty, and the rest. */
  lemma AtoiExact(sign: string, d: string)
    requires sign == "+" || sign == "-" || (sign == "" && (d != "" ==> d[0] != '+' && d[0] != '-'))
    ensures d == "" || (exists c :: c in d && c !in "0123456789") ==> Atoi(sign + d) == None
    ensures d != "" && (forall c :: c in d ==> c in "0123456789") ==>
              && AllDigits(d)
              && var n: int := if sign == "-" then 0 - DigitsValue(d) else DigitsValue(d);
                 Atoi(sign + d) ==
                   if -9223372036854775808 <= n <= 9223372036854775807 then Some(n as int64) else None
  {
    hide DigitsValue, IsDigit;
    forall c ensures IsDigit(c) <==> c in "0123456789" { DigitCharacters(c); }
    assert if sign == "" then sign + d == d else (sign + d)[0] == sign[0] && (sign + d)[1..] == d;
    assert forall i :: 0 <= i < |d| ==> d[i] in d;
  }

  lemma DigitCharacters(c: char)
    ensures IsDigit(c) <==> c in "0123456789"
  {
  }

  lemma AtoiOfIntText(i: int64)
    ensures Atoi(IntText(i)) == Some(i)
  {
    hide DigitsValue, IsDigit, Atoi, NatText;
    var n: int := i;
    var d := NatText(if n < 0 then -n else n);
    NatTextValue(if n < 0 then -n else n);
    forall c | c in d ensures c in "0123456789" { DigitCharacters(c); }
    assert d[0] in d;
    AtoiExact(if n < 0 then "-" else "", d);
    assert "" + d == d;
  }
}
