/** The template expander of config.go: `${key}` and `${key:default}` inside string values. */
module Template {
  import opened Types
  import opened Text

  const MAX_TEMPLATE_DEPTH := 16

  // ----- placeholders -----

  /** A placeholder starts here and is closed somewhere. */
  predicate Opens(s: string) {
    |s| >= 2 && s[0] == '$' && s[1] == '{' && Find(s[2..], '}') < |s| - 2
  }

  /** The text after the placeholder's closing brace. */
  function After(s: string): (r: string)
    requires Opens(s)
    ensures |r| <= |s| - 3
  {
    s[Find(s[2..], '}') + 3..]
  }

  function Inside(s: string): string
    requires Opens(s)
  {
    s[2..][..Find(s[2..], '}')]
  }

  function KeyPart(placeholder: string): string {
    placeholder[..Find(placeholder, ':')]
  }

  function DefaultPart(placeholder: string): string {
    var c := Find(placeholder, ':');
    if c == |placeholder| then "" else placeholder[c + 1..]
  }

  function HoleKey(s: string): string
    requires Opens(s)
  {
    KeyPart(Inside(s))
  }

  function HoleDefault(s: string): string
    requires Opens(s)
  {
    DefaultPart(Inside(s))
  }

  // ----- the left-to-right expander -----

  function Expand(data: Data, s: string, depth: nat): string
    decreases MAX_TEMPLATE_DEPTH - depth, |s|, 1
  {
    if depth >= MAX_TEMPLATE_DEPTH then s else Sweep(data, s, depth)
  }

  /** One sweep over the text; replacements are expanded one level deeper and not swept again. */
  function Sweep(data: Data, s: string, depth: nat): string
    requires depth < MAX_TEMPLATE_DEPTH
    decreases MAX_TEMPLATE_DEPTH - depth, |s|, 0
  {
    if s == "" then ""
    else if Opens(s) && HoleKey(s) in data then
      Expand(data, data[HoleKey(s)].str, depth + 1) + Sweep(data, After(s), depth)
    else if Opens(s) && HoleDefault(s) != "" then
      HoleDefault(s) + Sweep(data, After(s), depth)
    else [s[0]] + Sweep(data, s[1..], depth)
  }

  // ----- the in-place loop -----

  /** Looks for the closing brace from `i + 2` on. */
  method FindClosing(result: string, i: nat) returns (end: int)
    requires i + 1 < |result| && result[i] == '$' && result[i + 1] == '{'
    ensures end == -1 <==> !Opens(result[i..])
    ensures end != -1 ==> end == i + 2 + Find(result[i..][2..], '}')
  {
    var s := result[i..];
    assert |s| == |result| - i && s[0] == result[i] && s[1] == result[i + 1];
    var j := i + 2;
    while j < |result|
      invariant i + 2 <= j <= |result|
      invariant forall k :: 0 <= k < j - i - 2 ==> s[2..][k] != '}'
    {
      if result[j] == '}' {
        assert s[2..][j - i - 2] == '}';
        FindIs(s[2..], '}', j - i - 2);
        return j;
      }
      j := j + 1;
    }
    end := -1;
  }

  method FindColon(s: string) returns (colon: int)
    ensures colon == -1 <==> Find(s, ':') == |s|
    ensures colon != -1 ==> colon == Find(s, ':')
  {
    for i := 0 to |s|
      invariant forall j :: 0 <= j < i ==> s[j] != ':'
    {
      if s[i] == ':' { FindIs(s, ':', i); return i; }
    }
    colon := -1;
  }

  method SplitPlaceholder(placeholder: string) returns (key: string, def: string)
    ensures key == KeyPart(placeholder) && def == DefaultPart(placeholder)
  {
    var colon := FindColon(placeholder);
    if colon >= 0 {
      key, def := placeholder[..colon], placeholder[colon + 1..];
    } else {
      key, def := placeholder, "";
    }
  }

  /** Where the placeholder at `i` lies in the whole string. */
  lemma HoleBounds(result: string, i: nat)
    requires i <= |result| && Opens(result[i..])
    ensures var rest := result[i..];
            var end := i + 2 + Find(rest[2..], '}');
            && end < |result| && result[end + 1..] == After(rest) && result[i + 2..end] == Inside(rest)
            && rest[|rest| - |After(rest)|..] == After(rest)
  {
    var rest := result[i..];
    var e := Find(rest[2..], '}');
    assert result[i + e + 3..] == rest[e + 3..];
    assert result[i + 2..i + 2 + e] == rest[2..][..e];
  }

  lemma Advance(result: string, i: nat)
    requires i < |result|
    ensures result[..i + 1] == result[..i] + [result[i..][0]] && result[i + 1..] == result[i..][1..]
  {
  }

  lemma Splice(result: string, i: nat, end: nat, replacement: string)
    requires i <= end < |result|
    ensures var r := result[..i] + replacement + result[end + 1..];
            r[..i + |replacement|] == result[..i] + replacement && r[i + |replacement|..] == result[end + 1..]
  {
  }

  /** Copying one character is one step of the sweep, unless a placeholder is replaced there. */
  lemma CopyStep(data: Data, done: string, rest: string, depth: nat)
    requires depth < MAX_TEMPLATE_DEPTH && rest != ""
    requires Opens(rest) ==> HoleKey(rest) !in data && HoleDefault(rest) == ""
    ensures done + Sweep(data, rest, depth) == done + [rest[0]] + Sweep(data, rest[1..], depth)
  {
    Associative(done, [rest[0]], Sweep(data, rest[1..], depth));
  }

  lemma ReplaceStep(data: Data, done: string, rest: string, depth: nat, replacement: string)
    requires depth < MAX_TEMPLATE_DEPTH && Opens(rest)
    requires if HoleKey(rest) in data then replacement == Expand(data, data[HoleKey(rest)].str, depth + 1)
             else replacement == HoleDefault(rest) != ""
    ensures done + Sweep(data, rest, depth) == done + replacement + Sweep(data, After(rest), depth)
  {
    Associative(done, replacement, Sweep(data, After(rest), depth));
  }

  ghost predicate IsSuffix(rest: string, s: string) {
    |rest| <= |s| && rest == s[|s| - |rest|..]
  }

  lemma SuffixOfSuffix(s: string, rest: string, n: nat)
    requires IsSuffix(rest, s) && n <= |rest|
    ensures IsSuffix(rest[n..], s)
  {
  }

  /** The loop splices replacements into the string it is scanning; it computes the sweep. At every
      iteration `result` is finished output followed by an untouched suffix of the input. */
  method ProcessTemplateDepth(data: Data, s: string, depth: nat) returns (result: string)
    ensures result == Expand(data, s, depth)
    decreases MAX_TEMPLATE_DEPTH - depth, 1
  {
    hide Opens, Sweep, Inside, After, HoleKey, HoleDefault, KeyPart, DefaultPart, Find;
    if depth >= MAX_TEMPLATE_DEPTH { return s; }
    result := s;
    var i := 0;
    ghost var done, rest := "", s;
    assert done + Sweep(data, s, depth) == Sweep(data, s, depth);
    SuffixOfSuffix(s, s, 0);
    hide IsSuffix;
    while i < |result|
      invariant 0 <= i <= |result| && result[..i] == done && result[i..] == rest
      invariant IsSuffix(rest, s)
      invariant Sweep(data, s, depth) == done + Sweep(data, rest, depth)
      decreases |result| - i
    {
      var replacement, end := Replacement(data, result, i, depth);
      if end == -1 {
        CopyStep(data, done, rest, depth);
        SuffixOfSuffix(s, rest, 1);
        Advance(result, i);
        done, rest := done + [rest[0]], rest[1..];
      } else {
        HoleBounds(result, i);
        ReplaceStep(data, done, rest, depth, replacement);
        SuffixOfSuffix(s, rest, |rest| - |After(rest)|);
        Splice(result, i, end, replacement);
        result := result[..i] + replacement + result[end + 1..];
        i := i + |replacement| - 1;
        done, rest := done + replacement, After(rest);
      }
      i := i + 1;
    }
    SweepNothing(data, depth);
    assert result[..i] == result && done + "" == done;
  }

  lemma SweepNothing(data: Data, depth: nat)
    requires depth < MAX_TEMPLATE_DEPTH
    ensures Sweep(data, "", depth) == ""
  {
  }

  /** The body of the loop up to the splice: the replacement for the placeholder at `i` and its
      closing brace, or -1 when nothing is replaced there. */
  method Replacement(data: Data, result: string, i: nat, depth: nat) returns (replacement: string, end: int)
    requires i < |result| && depth < MAX_TEMPLATE_DEPTH
    ensures var rest := result[i..];
            if end == -1 then Opens(rest) ==> HoleKey(rest) !in data && HoleDefault(rest) == ""
            else Opens(rest) && end == i + 2 + Find(rest[2..], '}') &&
                 if HoleKey(rest) in data then replacement == Expand(data, data[HoleKey(rest)].str, depth + 1)
                 else replacement == HoleDefault(rest) != ""
    decreases MAX_TEMPLATE_DEPTH - depth, 0
  {
    hide Expand, KeyPart, DefaultPart;
    replacement := "";
    if result[i] != '$' || i + 1 >= |result| || result[i + 1] != '{' { return "", -1; }
    end := FindClosing(result, i);
    if end == -1 { return; }
    HoleBounds(result, i);
    var key, def := SplitPlaceholder(result[i + 2..end]);
    if key in data {
      replacement := ProcessTemplateDepth(data, data[key].str, depth + 1);
    } else if def != "" {
      replacement := def;
    } else {
      end := -1;
    }
  }
}
