/** When the depth limit of the template expander cannot be seen. */
module TemplateDepth {
  import opened Types
  import opened Text
  import opened Template

  /** The keys that one sweep over a text resolves. */
  function Refs(data: Data, s: string): set<string>
    decreases |s|
  {
    if s == "" then {}
    else if Opens(s) && HoleKey(s) in data then {HoleKey(s)} + Refs(data, After(s))
    else if Opens(s) && HoleDefault(s) != "" then Refs(data, After(s))
    else Refs(data, s[1..])
  }

  type Ranking = map<string, nat>

  /** Every key that the text resolves has a rank below `n`. */
  predicate Below(data: Data, s: string, rank: Ranking, n: nat) {
    forall k :: k in Refs(data, s) ==> k in rank && rank[k] < n
  }

  /** References are acyclic: a key's value resolves only keys of smaller rank. */
  ghost predicate Ranked(data: Data, rank: Ranking) {
    forall k :: k in data ==> k in rank && Below(data, data[k].str, rank, rank[k])
  }

  /** Expansion without any depth limit; the ranking is why it ends. */
  ghost function Unbounded(data: Data, s: string, rank: Ranking, n: nat): string
    requires Ranked(data, rank) && Below(data, s, rank, n)
    decreases n, |s|
  {
    if s == "" then ""
    else if Opens(s) && HoleKey(s) in data then
      var k := HoleKey(s);
      assert k in Refs(data, s);
      Unbounded(data, data[k].str, rank, rank[k]) + Unbounded(data, After(s), rank, n)
    else if Opens(s) && HoleDefault(s) != "" then
      HoleDefault(s) + Unbounded(data, After(s), rank, n)
    else [s[0]] + Unbounded(data, s[1..], rank, n)
  }

  /** Unbounded expansion does not depend on which ranking shows that it ends. */
  lemma {:induction false} UnboundedUnique(data: Data, s: string, rank: Ranking, n: nat, rank': Ranking, n': nat)
    requires Ranked(data, rank) && Below(data, s, rank, n)
    requires Ranked(data, rank') && Below(data, s, rank', n')
    ensures Unbounded(data, s, rank, n) == Unbounded(data, s, rank', n')
    decreases n, |s|
  {
    hide Opens, After, HoleKey, HoleDefault;
    if s != "" {
      if Opens(s) && HoleKey(s) in data {
        var k := HoleKey(s);
        assert k in Refs(data, s);
        UnboundedUnique(data, data[k].str, rank, rank[k], rank', rank'[k]);
        UnboundedUnique(data, After(s), rank, n, rank', n');
      } else if Opens(s) && HoleDefault(s) != "" {
        UnboundedUnique(data, After(s), rank, n, rank', n');
      } else {
        UnboundedUnique(data, s[1..], rank, n, rank', n');
      }
    }
  }

  /** With n levels of references left and room for them below the limit, the limit is invisible. */
  lemma {:induction false} LimitInvisible(data: Data, s: string, rank: Ranking, n: nat, depth: nat)
    requires Ranked(data, rank) && Below(data, s, rank, n)
    requires depth + n < MAX_TEMPLATE_DEPTH
    ensures Expand(data, s, depth) == Unbounded(data, s, rank, n)
    decreases n, |s|
  {
    hide Opens, After, HoleKey, HoleDefault;
    if s != "" {
      if Opens(s) && HoleKey(s) in data {
        var k := HoleKey(s);
        assert k in Refs(data, s);
        LimitInvisible(data, data[k].str, rank, rank[k], depth + 1);
        LimitInvisible(data, After(s), rank, n, depth);
      } else if Opens(s) && HoleDefault(s) != "" {
        LimitInvisible(data, After(s), rank, n, depth);
      } else {
        LimitInvisible(data, s[1..], rank, n, depth);
      }
    }
  }

  /** The text holds no placeholder that a sweep replaces: expanding it changes nothing. */
  predicate Inert(data: Data, s: string)
    decreases |s|
  {
    s == "" || ((Opens(s) ==> HoleKey(s) !in data && HoleDefault(s) == "") && Inert(data, s[1..]))
  }

  lemma {:induction false} InertUnbounded(data: Data, s: string, rank: Ranking, n: nat)
    requires Ranked(data, rank) && Below(data, s, rank, n) && Inert(data, s)
    ensures Unbounded(data, s, rank, n) == s
    decreases |s|
  {
    hide Opens, After, HoleKey, HoleDefault;
    if s != "" { InertUnbounded(data, s[1..], rank, n); }
  }

  /** Values that refer to no key hold no placeholder with a default either. */
  ghost predicate InertEnds(data: Data, rank: Ranking) {
    forall k :: k in data && k in rank && rank[k] == 0 ==> Inert(data, data[k].str)
  }

  /** Then there is room for one more level, up to the limit itself: what lies there is plain. */
  lemma {:induction false} LimitInvisibleInert(data: Data, s: string, rank: Ranking, n: nat, depth: nat)
    requires Ranked(data, rank) && Below(data, s, rank, n) && InertEnds(data, rank)
    requires depth + n <= MAX_TEMPLATE_DEPTH && (depth == MAX_TEMPLATE_DEPTH ==> Inert(data, s))
    ensures Expand(data, s, depth) == Unbounded(data, s, rank, n)
    decreases n, |s|
  {
    hide Opens, After, HoleKey, HoleDefault, Inert;
    if depth == MAX_TEMPLATE_DEPTH {
      InertUnbounded(data, s, rank, n);
    } else if s != "" {
      if Opens(s) && HoleKey(s) in data {
        var k := HoleKey(s);
        assert k in Refs(data, s);
        LimitInvisibleInert(data, data[k].str, rank, rank[k], depth + 1);
        LimitInvisibleInert(data, After(s), rank, n, depth);
      } else if Opens(s) && HoleDefault(s) != "" {
        LimitInvisibleInert(data, After(s), rank, n, depth);
      } else {
        LimitInvisibleInert(data, s[1..], rank, n, depth);
      }
    }
  }

  /** Acyclic references whose ranks stay within 14 are expanded completely. */
  lemma AcyclicExpandsFully(data: Data, s: string, rank: Ranking)
    requires Ranked(data, rank) && forall k :: k in Refs(data, s) ==> k in rank && rank[k] <= 14
    ensures Below(data, s, rank, 15) && Expand(data, s, 0) == Unbounded(data, s, rank, 15)
  {
    LimitInvisible(data, s, rank, 15, 0);
  }

  /** Ranks may go up to 15 when the values that refer to no key are inert. */
  lemma InertEndsExpandFully(data: Data, s: string, rank: Ranking)
    requires Ranked(data, rank) && forall k :: k in Refs(data, s) ==> k in rank && rank[k] <= 15
    requires InertEnds(data, rank)
    ensures Below(data, s, rank, 16) && Expand(data, s, 0) == Unbounded(data, s, rank, 16)
  {
    LimitInvisibleInert(data, s, rank, 16, 0);
  }

  // ----- the bound is tight -----

  predicate PlainName(k: string) { ':' !in k && '}' !in k }

  function Ref(k: string): string { "${" + k + "}" }

  /** Key i refers to key i - 1, and key 0 holds `end`. */
  ghost predicate Chain(data: Data, names: seq<string>, end: string) {
    && names != []
    && (forall i :: 0 <= i < |names| ==> PlainName(names[i]) && names[i] in data)
    && data[names[0]].str == end
    && (forall i :: 0 < i < |names| ==> data[names[i]].str == Ref(names[i - 1]))
  }

  lemma RefParts(inside: string)
    requires '}' !in inside
    ensures var s := Ref(inside); Opens(s) && Inside(s) == inside && After(s) == ""
  {
    var s := Ref(inside);
    assert s[2..] == inside + "}";
    FindIs(s[2..], '}', |inside|);
    assert s[2..][..|inside|] == inside;
  }

  lemma NameParts(k: string)
    requires PlainName(k)
    ensures KeyPart(k) == k && DefaultPart(k) == ""
    ensures forall def :: KeyPart(k + ":" + def) == k && DefaultPart(k + ":" + def) == def
  {
    assert Find(k, ':') == |k|;
    assert k[..|k|] == k;
    forall def ensures KeyPart(k + ":" + def) == k && DefaultPart(k + ":" + def) == def {
      var p := k + ":" + def;
      FindIs(p, ':', |k|);
      assert p[..|k|] == k && p[|k| + 1..] == def;
    }
  }

  lemma ExpandRef(data: Data, k: string, depth: nat)
    requires PlainName(k) && k in data && depth < MAX_TEMPLATE_DEPTH
    ensures Expand(data, Ref(k), depth) == Expand(data, data[k].str, depth + 1)
  {
    RefParts(k);
    NameParts(k);
    hide Opens, Inside, After, KeyPart;
    var r := Expand(data, data[k].str, depth + 1);
    assert Sweep(data, "", depth) == "";
    assert r + "" == r;
    assert HoleKey(Ref(k)) == k;
  }

  lemma ExpandDefault(data: Data, k: string, def: string, depth: nat)
    requires PlainName(k) && k !in data && def != "" && '}' !in def && depth < MAX_TEMPLATE_DEPTH
    ensures Expand(data, Ref(k + ":" + def), depth) == def
  {
    RefParts(k + ":" + def);
    NameParts(k);
    hide Opens, Inside, After, KeyPart, DefaultPart;
    assert Sweep(data, "", depth) == "";
    assert def + "" == def;
    assert HoleKey(Ref(k + ":" + def)) == k && HoleDefault(Ref(k + ":" + def)) == def;
  }

  /** Along a chain every reference costs one level: the end is expanded at its own depth, or the
      text stops at the reference that the limit leaves alone. */
  lemma {:induction false} ChainStops(data: Data, names: seq<string>, end: string, i: nat, depth: nat)
    requires Chain(data, names, end) && i < |names|
    ensures Expand(data, Ref(names[i]), depth) ==
            if depth + i < MAX_TEMPLATE_DEPTH then Expand(data, end, depth + i + 1)
            else if depth < MAX_TEMPLATE_DEPTH then Ref(names[depth + i - MAX_TEMPLATE_DEPTH])
            else Ref(names[i])
    decreases i
  {
    hide Expand;
    if depth >= MAX_TEMPLATE_DEPTH {
      AtTheLimit(data, Ref(names[i]), depth);
    } else {
      ExpandRef(data, names[i], depth);
      if i > 0 {
        ChainStops(data, names, end, i - 1, depth + 1);
      }
    }
  }

  lemma AtTheLimit(data: Data, s: string, depth: nat)
    requires depth >= MAX_TEMPLATE_DEPTH
    ensures Expand(data, s, depth) == s
  {
  }

  /** A chain that ends in a placeholder with a default reaches the default exactly when there is a
      level left for it. */
  lemma ChainToDefault(data: Data, names: seq<string>, missing: string, def: string, i: nat, depth: nat)
    requires PlainName(missing) && missing !in data && def != "" && '}' !in def && '$' !in def
    requires Chain(data, names, Ref(missing + ":" + def)) && i < |names|
    ensures Expand(data, Ref(names[i]), depth) == def <==> depth + i + 1 < 16
  {
    hide Expand;
    var end := Ref(missing + ":" + def);
    ChainStops(data, names, end, i, depth);
    assert end[0] == '$' && forall j :: 0 <= j < |names| ==> Ref(names[j])[0] == '$';
    if depth + i + 1 < MAX_TEMPLATE_DEPTH {
      ExpandDefault(data, missing, def, depth + i + 1);
    } else {
      AtTheLimit(data, end, depth + i + 1);
    }
  }

  /** A chain that ends in plain text reaches it with one level less. */
  lemma ChainToText(data: Data, names: seq<string>, text: string, i: nat, depth: nat)
    requires Chain(data, names, text) && i < |names| && '$' !in text
    ensures Expand(data, Ref(names[i]), depth) == text <==> depth + i < 16
  {
    hide Expand;
    ChainStops(data, names, text, i, depth);
    assert forall j :: 0 <= j < |names| ==> Ref(names[j])[0] == '$';
    ExpandPlain(data, text, depth + i + 1);
  }

  lemma {:induction false} ExpandPlain(data: Data, s: string, depth: nat)
    requires '$' !in s
    ensures Expand(data, s, depth) == s
    decreases |s|
  {
    if s != "" { ExpandPlain(data, s[1..], depth); }
  }

  /** A key that refers to itself is left as it is, at any depth. */
  lemma {:induction false} SelfReference(data: Data, k: string, depth: nat)
    requires PlainName(k) && k in data && data[k].str == Ref(k)
    ensures Expand(data, Ref(k), depth) == Ref(k)
    decreases MAX_TEMPLATE_DEPTH - depth
  {
    if depth < MAX_TEMPLATE_DEPTH {
      ExpandRef(data, k, depth);
      SelfReference(data, k, depth + 1);
    }
  }

  // ----- a placeholder in its text -----

  /** Text without a dollar sign is copied. */
  lemma {:induction false} TextCopied(data: Data, text: string, rest: string, depth: nat)
    requires '$' !in text
    ensures Expand(data, text + rest, depth) == text + Expand(data, rest, depth)
    decreases |text|
  {
    if text == "" {
      assert text + rest == rest;
    } else {
      var s := text + rest;
      assert s[1..] == text[1..] + rest && s[0] == text[0];
      TextCopied(data, text[1..], rest, depth);
      if depth < MAX_TEMPLATE_DEPTH {
        assert [s[0]] + text[1..] == text;
        Associative([s[0]], text[1..], Expand(data, rest, depth));
      }
    }
  }

  lemma HoleParts(inside: string, rest: string)
    requires '}' !in inside
    ensures var s := "${" + inside + "}" + rest; Opens(s) && Inside(s) == inside && After(s) == rest
  {
    var s := "${" + inside + "}" + rest;
    assert s[2..] == inside + "}" + rest;
    FindIs(s[2..], '}', |inside|);
    assert s[2..][..|inside|] == inside && s[|inside| + 3..] == rest;
  }

  lemma HoleStep(data: Data, inside: string, rest: string, depth: nat)
    requires '}' !in inside && depth < MAX_TEMPLATE_DEPTH
    ensures var s := "${" + inside + "}" + rest;
            Expand(data, s, depth) ==
              if KeyPart(inside) in data then
                Expand(data, data[KeyPart(inside)].str, depth + 1) + Expand(data, rest, depth)
              else if DefaultPart(inside) != "" then DefaultPart(inside) + Expand(data, rest, depth)
              else "$" + Expand(data, "{" + inside + "}" + rest, depth)
  {
    hide Opens, Inside, After, KeyPart, DefaultPart;
    HoleParts(inside, rest);
    var s := "${" + inside + "}" + rest;
    assert s[1..] == "{" + inside + "}" + rest;
  }

  /** A placeholder between any two texts: the key up to the first colon is looked up first, then the
      default counts, and without either the placeholder stays. What was put in is not expanded again. */
  lemma PlaceholderExpands(data: Data, text: string, key: string, def: string, rest: string, depth: nat)
    requires '$' !in text && PlainName(key) && '$' !in key && '}' !in def && depth < 16
    ensures key in data ==>
              && Expand(data, text + ("${" + key + "}" + rest), depth) ==
                   text + (Expand(data, data[key].str, depth + 1) + Expand(data, rest, depth))
              && Expand(data, text + ("${" + (key + ":" + def) + "}" + rest), depth) ==
                   text + (Expand(data, data[key].str, depth + 1) + Expand(data, rest, depth))
    ensures key !in data && def != "" ==>
              Expand(data, text + ("${" + (key + ":" + def) + "}" + rest), depth) ==
                text + (def + Expand(data, rest, depth))
    ensures key !in data ==>
              Expand(data, text + ("${" + key + "}" + rest), depth) ==
                text + ("$" + ("{" + key + "}" + Expand(data, rest, depth)))
    ensures key !in data ==>
              Expand(data, text + ("${" + (key + ":") + "}" + rest), depth) ==
                text + ("$" + ("{" + (key + ":") + "}" + Expand(data, rest, depth)))
  {
    hide Expand, KeyPart, DefaultPart;
    NameParts(key);
    TextCopied(data, text, "${" + key + "}" + rest, depth);
    TextCopied(data, text, "${" + (key + ":" + def) + "}" + rest, depth);
    HoleStep(data, key, rest, depth);
    HoleStep(data, key + ":" + def, rest, depth);
    TextCopied(data, "{" + key + "}", rest, depth);
    assert key + ":" == key + ":" + "";
    TextCopied(data, text, "${" + (key + ":") + "}" + rest, depth);
    HoleStep(data, key + ":", rest, depth);
    TextCopied(data, "{" + (key + ":") + "}", rest, depth);
  }

  /** Without a closing brace nothing is replaced. */
  lemma {:induction false} Unclosed(data: Data, s: string, depth: nat)
    requires '}' !in s
    ensures Expand(data, s, depth) == s
    decreases |s|
  {
    if s != "" {
      assert |s| >= 2 ==> '}' !in s[2..];
      Unclosed(data, s[1..], depth);
    }
  }
}
