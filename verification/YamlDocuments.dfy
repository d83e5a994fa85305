/** What the parser makes of a document, in terms of its layout: keys and values in their quotes,
    comments, blank lines, and blocks at any indentation. */
module YamlDocuments {
  import opened Types
  import opened Text
  import opened GoMaps
  import opened YamlScalars
  import opened ConfParser
  import opened Export
  import opened YamlRoundTrip

  // ----- comments -----

  /** A stretch of a line: text without hash, quote or backslash; a quoted text; an escaped character. */
  datatype Segment = Bare(s: string) | Single(s: string) | Double(s: string) | Escaped(c: char)

  /** Each quote of this kind has a backslash before it that belongs to it, and none is left over. */
  predicate Closed(s: string, quote: char) {
    s == "" ||
    if s[0] == '\\' then |s| >= 2 && Closed(s[2..], quote) else s[0] != quote && Closed(s[1..], quote)
  }

  predicate Proper(g: Segment) {
    match g
    case Bare(s) => '#' !in s && '\'' !in s && '"' !in s && '\\' !in s
    case Single(s) => Closed(s, '\'')
    case Double(s) => Closed(s, '"')
    case Escaped(_) => true
  }

  function SegmentText(g: Segment): string {
    match g
    case Bare(s) => s
    case Single(s) => "'" + s + "'"
    case Double(s) => "\"" + s + "\""
    case Escaped(c) => "\\" + [c]
  }

  function Joined(gs: seq<Segment>): string {
    if gs == [] then "" else Joined(gs[..|gs| - 1]) + SegmentText(gs[|gs| - 1])
  }

  const OUTSIDE := Quoting(false, false, false)

  lemma {:induction false} StaysIn(t: string, s: string, q: Quoting)
    requires Scan(t) == q && forall c :: c in s ==> q.Next(c) == q
    ensures Scan(t + s) == q
    decreases |s|
  {
    if s == "" {
      assert t + s == t;
    } else {
      var p, c := s[..|s| - 1], s[|s| - 1];
      StaysIn(t, p, q);
      ScanSnoc(t + p, c);
      assert t + s == t + p + [c];
    }
  }

  /** Inside a segment no hash starts a comment, and after it the stripper is outside again. */
  lemma SegmentScan(t: string, g: Segment, k: nat)
    requires Scan(t) == OUTSIDE && Proper(g) && k <= |SegmentText(g)|
    ensures var q := Scan(t + SegmentText(g)[..k]);
            if k == |SegmentText(g)| then q == OUTSIDE else q.Outside() ==> SegmentText(g)[k] != '#'
  {
    hide Scan;
    match g {
      case Bare(s) => StaysIn(t, s[..k], OUTSIDE);
      case Escaped(c) =>
        assert t + ("\\" + [c])[..0] == t && t + ("\\" + [c])[..1] == t + ['\\'];
        ScanSnoc(t, '\\');
        ScanSnoc(t + ['\\'], c);
        assert t + ("\\" + [c])[..2] == t + ['\\'] + [c];
      case Single(s) => QuotedScan(t, s, '\'', Quoting(true, false, false), k);
      case Double(s) => QuotedScan(t, s, '"', Quoting(false, true, false), k);
    }
  }

  /** Between its quotes the stripper stays inside, and at the end of the text nothing is escaped. */
  lemma {:induction false} StaysInside(t: string, s: string, quote: char, k: nat)
    requires quote == '\'' || quote == '"'
    requires Scan(t) == (if quote == '\'' then Quoting(true, false, false) else Quoting(false, true, false))
    requires Closed(s, quote) && k <= |s|
    ensures var q := Scan(t + s[..k]);
            q.single == (quote == '\'') && q.double == (quote == '"') && (k == |s| ==> !q.escaped)
    decreases |s|
  {
    if k == 0 {
      assert t + s[..0] == t;
    } else {
      ScanSnoc(t, s[0]);
      if s[0] != '\\' {
        StaysInside(t + [s[0]], s[1..], quote, k - 1);
        assert t + s[..k] == t + [s[0]] + s[1..][..k - 1];
      } else if k == 1 {
        assert t + s[..1] == t + [s[0]];
      } else {
        ScanSnoc(t + [s[0]], s[1]);
        StaysInside(t + [s[0]] + [s[1]], s[2..], quote, k - 2);
        assert t + s[..k] == t + [s[0]] + [s[1]] + s[2..][..k - 2];
      }
    }
  }

  lemma QuotedScan(t: string, s: string, quote: char, q: Quoting, k: nat)
    requires Scan(t) == OUTSIDE && k <= |s| + 2 && quote != '#'
    requires Closed(s, quote) && OUTSIDE.Next(quote) == q && q.Next(quote) == OUTSIDE
    requires q == if quote == '\'' then Quoting(true, false, false) else Quoting(false, true, false)
    ensures var text := [quote] + s + [quote];
            var r := Scan(t + text[..k]);
            if k == |text| then r == OUTSIDE else r.Outside() ==> text[k] != '#'
  {
    hide Scan, Closed;
    var text := [quote] + s + [quote];
    ScanSnoc(t, quote);
    if k == 0 {
      assert t + text[..0] == t;
    } else if k < |text| {
      StaysInside(t + [quote], s, quote, k - 1);
      assert t + text[..k] == t + [quote] + s[..k - 1];
    } else {
      StaysInside(t + [quote], s, quote, |s|);
      assert s[..|s|] == s;
      ScanSnoc(t + [quote] + s, quote);
      assert t + text[..k] == t + [quote] + s + [quote];
    }
  }

  lemma {:induction false} SegmentsScan(gs: seq<Segment>, i: nat)
    requires (forall g :: g in gs ==> Proper(g)) && i <= |Joined(gs)|
    ensures if i == |Joined(gs)| then Scan(Joined(gs)) == OUTSIDE else !CommentAt(Joined(gs), i)
    decreases |gs|
  {
    hide Scan, Proper, SegmentText;
    if gs == [] {
      assert Scan("") == OUTSIDE by { ScanNothing(); }
    } else {
      var p, g := Joined(gs[..|gs| - 1]), gs[|gs| - 1];
      var j := Joined(gs);
      assert j[..|j|] == j;
      SegmentsScan(gs[..|gs| - 1], |p|);
      if i < |p| {
        SegmentsScan(gs[..|gs| - 1], i);
        assert j[..i] == p[..i];
      } else {
        SegmentScan(p, g, i - |p|);
        assert j[..i] == p + SegmentText(g)[..i - |p|];
      }
    }
  }

  lemma ScanNothing()
    ensures Scan("") == OUTSIDE
  {
  }

  /** Text made of such segments passes the comment stripper as it is; a hash right after it, and all
      that follows, is cut off. Both ends are trimmed. */
  lemma CommentsStripped(gs: seq<Segment>, rest: string)
    requires forall g :: g in gs ==> Proper(g)
    ensures StripComment(Joined(gs)) == Trim(Joined(gs))
    ensures StripComment(Joined(gs) + "#" + rest) == Trim(Joined(gs))
  {
    hide Scan, Proper, SegmentText, Trim, Joined;
    var j := Joined(gs);
    var t := j + "#" + rest;
    forall i | 0 <= i < |j| ensures !CommentAt(j, i) && !CommentAt(t, i) {
      SegmentsScan(gs, i);
      assert t[..i] == j[..i];
    }
    SegmentsScan(gs, |j|);
    assert j[..|j|] == j && t[..|j|] == j;
    assert CommentStart(j) == |j|;
    assert CommentAt(t, |j|);
    assert CommentStart(t) == |j|;
  }

  // ----- values -----

  /** A value as it is written: a bare word, or any text between quotes of one kind. */
  datatype Form = Unquoted(s: string) | InSingle(s: string) | InDouble(s: string)

  function Segmented(f: Form): Segment {
    match f
    case Unquoted(s) => Bare(s)
    case InSingle(s) => Single(s)
    case InDouble(s) => Double(s)
  }

  predicate FormOk(f: Form) {
    Proper(Segmented(f)) && '\n' !in f.s && (f.Unquoted? ==> f.s != "" && Tight(f.s))
  }

  function FormText(f: Form): string {
    SegmentText(Segmented(f))
  }

  /** What a written value means. */
  function FormValue(lib: FloatLib, f: Form): Any {
    if !f.Unquoted? then Str(f.s)
    else if Lower(f.s) in ["true", "yes", "on"] then Bool(true)
    else if Lower(f.s) in ["false", "no", "off"] then Bool(false)
    else if Lower(f.s) == "null" || f.s == "~" then Nil
    else
      match Atoi(f.s)
      case Some(i) => Int(i)
      case None =>
        match lib.parse(f.s)
        case Some(b) => Float(b)
        case None => Str(f.s)
  }

  lemma FormTight(f: Form)
    requires FormOk(f)
    ensures FormText(f) != "" && Tight(FormText(f)) && '\n' !in FormText(f)
  {
  }

  lemma FormReads(lib: FloatLib, f: Form)
    requires FormOk(f)
    ensures ParseValue(lib, FormText(f)) == Ok(FormValue(lib, f))
  {
    FormTight(f);
    TrimFixed(FormText(f));
    hide Trim, Lower, Atoi, Tight;
    if f.Unquoted? {
      assert f.s[0] in f.s;
    } else {
      hide ParseValue, Between;
      EnclosedReads(lib, f.s, if f.InSingle? then '\'' else '"');
    }
  }

  lemma EnclosedReads(lib: FloatLib, s: string, quote: char)
    requires (quote == '\'' || quote == '"') && Trim([quote] + s + [quote]) == [quote] + s + [quote]
    ensures ParseValue(lib, [quote] + s + [quote]) == Ok(Str(s))
  {
    hide Trim, Lower, Atoi;
    var t := [quote] + s + [quote];
    assert t[1..|t| - 1] == s;
  }

  // ----- what stands on a line -----

  predicate Spaces(s: string) {
    forall c :: c in s ==> IsSpace(c) && c != '\n'
  }

  predicate Blanks(s: string) {
    forall c :: c in s ==> c == ' ' || c == '\t'
  }

  /** The end of a line: white space and perhaps a comment. */
  datatype Tail = Tail(space: string, comment: Option<string>)

  predicate TailOk(t: Tail) {
    Spaces(t.space) && (t.comment.Some? ==> '\n' !in t.comment.value)
  }

  function TailText(t: Tail): string {
    t.space + match t.comment case Some(c) => "#" + c case None => ""
  }

  /** The start of a line: indentation, the key in any number of quote characters, the colon. */
  datatype Head = Head(pad: string, opening: string, key: string, closing: string, gap: string)

  function Name(h: Head): string {
    h.opening + h.key + h.closing
  }

  predicate HeadOk(h: Head) {
    && Blanks(h.pad) && Spaces(h.gap) && (Name(h) == "" ==> h.gap == "")
    && (forall c :: c in h.opening + h.closing ==> c == '"' || c == '\'')
    && ':' !in h.key && '\n' !in h.key
    && (h.key != "" ==> !QuoteChar(h.key[0]) && !QuoteChar(h.key[|h.key| - 1]))
    && Tight(Name(h)) && (Name(h) != "" ==> Name(h)[0] != '#')
  }

  function HeadText(h: Head): string {
    h.pad + (Name(h) + h.gap + ":")
  }

  lemma TrimAround(a: string, x: string, b: string)
    requires Spaces(a) && Tight(x) && Spaces(b)
    ensures Trim(a + x + b) == x
  {
    assert a + x + b == a + (x + b);
    TrimLeftBefore(a, x + b);
    TrimLeftBefore(b, "");
    assert b + "" == b;
    if x == "" {
      assert x + b == b;
    } else {
      TrimRightAfter(x, b);
      assert TrimRight(b) == "" by { TrimOfTrimRight(b); TrimRightSpaces(b); }
      assert x + "" == x;
    }
  }

  lemma {:induction false} TrimRightSpaces(b: string)
    requires Spaces(b)
    ensures TrimRight(b) == ""
    decreases |b|
  {
    if b != "" { TrimRightSpaces(b[..|b| - 1]); }
  }

  lemma SpacesProper(b: string)
    requires Spaces(b)
    ensures Proper(Bare(b))
  {
  }

  lemma TrimComment(x: string, space: string, comment: string)
    requires Tight(x) && Spaces(space)
    ensures Trim(x + (space + "#" + comment)) == x + (if x == "" then "" else space) + "#" + TrimRight(comment)
  {
    hide TrimRight, TrimLeft;
    if x == "" {
      assert x + (space + "#" + comment) == space + ("#" + comment);
      TrimLeftBefore(space, "#" + comment);
      HashStays(comment);
      TrimRightAfter("#", comment);
      assert "" + "" + "#" == "#";
    } else {
      assert x + (space + "#" + comment) == x + space + "#" + comment;
      WordStays(x, space + "#" + comment);
      TrimRightAfter(x + space + "#", comment);
    }
  }

  lemma HashStays(comment: string)
    ensures TrimLeft("#" + comment) == "#" + comment
  {
  }

  lemma WordStays(x: string, rest: string)
    requires Tight(x) && x != ""
    ensures TrimLeft(x + rest) == x + rest
  {
  }

  /** After the colon, only the written value counts. */
  lemma RestReads(lead: string, gs: seq<Segment>, t: Tail)
    requires Spaces(lead) && TailOk(t) && (forall g :: g in gs ==> Proper(g)) && Tight(Joined(gs))
    ensures ValueRead(lead + (Joined(gs) + TailText(t))) == Joined(gs)
  {
    hide Trim, Joined, StripComment, Proper, Spaces, Tight;
    var x := Joined(gs);
    TrimLead(lead, x + TailText(t));
    TrimFixed(x);
    CommentsStripped(gs, "");
    match t.comment {
      case None =>
        assert "" + x + t.space == x + TailText(t);
        assert Spaces("") by { NoSpaces(); }
        TrimAround("", x, t.space);
      case Some(c) =>
        assert x + TailText(t) == x + (t.space + "#" + c);
        TrimComment(x, t.space, c);
        if x == "" {
          CommentsStripped(gs, TrimRight(c));
          assert x + "" + "#" == x + "#";
        } else {
          SpacesProper(t.space);
          JoinedSnoc(gs, Bare(t.space));
          CommentsStripped(gs + [Bare(t.space)], TrimRight(c));
          assert Spaces("") by { NoSpaces(); }
          TrimAround("", x, t.space);
          assert "" + x + t.space == x + t.space;
        }
    }
  }

  lemma NoSpaces()
    ensures Spaces("")
  {
  }

  lemma TrimLead(lead: string, rest: string)
    requires Spaces(lead)
    ensures Trim(lead + rest) == Trim(rest)
  {
    TrimLeftBefore(lead, rest);
  }

  lemma JoinedSnoc(gs: seq<Segment>, g: Segment)
    ensures Joined(gs + [g]) == Joined(gs) + SegmentText(g)
  {
    assert (gs + [g])[..|gs|] == gs;
  }

  // ----- the line of a key -----

  lemma {:induction false} IndentOf(pad: string, s: string)
    requires Blanks(pad) && s != "" && s[0] != ' ' && s[0] != '\t'
    ensures Indent(pad + s) == |pad|
    decreases |pad|
  {
    if pad == "" {
      assert pad + s == s;
    } else {
      assert (pad + s)[1..] == pad[1..] + s;
      assert pad[0] in pad && forall c :: c in pad[1..] ==> c in pad;
      IndentOf(pad[1..], s);
    }
  }

  lemma {:induction false} TrimQuotesAround(a: string, k: string, b: string)
    requires forall c :: c in a + b ==> QuoteChar(c)
    requires k != "" ==> !QuoteChar(k[0]) && !QuoteChar(k[|k| - 1])
    ensures TrimQuotes(a + k + b) == k
    decreases |a| + |b|
  {
    var s := a + k + b;
    if a != "" {
      assert a[0] in a + b && s[0] == a[0] && s[1..] == a[1..] + k + b;
      assert forall c :: c in a[1..] + b ==> c in a + b;
      TrimQuotesAround(a[1..], k, b);
    } else if b != "" && k == "" {
      assert s == b && s[1..] == a + k + b[1..] && b[0] in a + b;
      assert forall c :: c in a + b[1..] ==> c in a + b;
      TrimQuotesAround(a, k, b[1..]);
    } else if b != "" {
      assert b[|b| - 1] in a + b && s[|s| - 1] == b[|b| - 1] && s[..|s| - 1] == a + k + b[..|b| - 1];
      assert forall c :: c in a + b[..|b| - 1] ==> c in a + b;
      assert s[0] == k[0];
      TrimQuotesAround(a, k, b[..|b| - 1]);
    } else {
      assert s == k;
    }
  }

  lemma HeadReads(lib: FloatLib, z: Zipper, h: Head, rest: string)
    requires HeadOk(h)
    ensures ReadLine(lib, z, HeadText(h) + rest) == Bind(lib, PopTo(z, |h.pad|), h.key, ValueRead(rest), |h.pad|)
  {
    hide TrimRight, TrimLeft, Bind, PopTo, StripComment, TrimQuotes, Indent, IsSpace;
    var name := Name(h) + h.gap;
    var body := name + ":" + rest;
    assert HeadText(h) + rest == h.pad + body;
    NameStarts(h, rest);
    IndentOf(h.pad, body);
    BlanksSpaces(h.pad);
    TrimLeftBefore(h.pad, body);
    NoColon(h);
    TrimRightAfter(name + ":", rest);
    var line := name + ":" + TrimRight(rest);
    assert Trim(HeadText(h) + rest) == line;
    FindIs(line, ':', |name|);
    assert line[..|name|] == name && line[|name| + 1..] == TrimRight(rest);
    assert "" + Name(h) + h.gap == name;
    TrimAround("", Name(h), h.gap);
    TrimQuotesAround(h.opening, h.key, h.closing);
    TrimOfTrimRight(rest);
  }

  lemma NoColon(h: Head)
    requires HeadOk(h)
    ensures ':' !in Name(h) + h.gap && !IsSpace(':')
  {
    assert forall c :: c in h.opening || c in h.closing ==> c in h.opening + h.closing;
  }

  lemma BlanksSpaces(pad: string)
    requires Blanks(pad)
    ensures forall c :: c in pad ==> IsSpace(c)
  {
  }

  lemma NameStarts(h: Head, rest: string)
    requires HeadOk(h)
    ensures var body := Name(h) + h.gap + ":" + rest;
            TrimLeft(body) == body && !IsSpace(body[0]) && body[0] != '#' && body[0] != ' ' && body[0] != '\t'
  {
    var body := Name(h) + h.gap + ":" + rest;
    assert body[0] == if Name(h) == "" then ':' else Name(h)[0];
  }

  // ----- documents -----

  /** One thing in a block: a blank line or comment, a line without a colon, a key with its value, or a
      key with a block of its own below. */
  datatype Item =
    | Noise(tail: Tail)
    | Stray(pad: string, text: string, space: string)
    | Leaf(head: Head, lead: string, form: Form, tail: Tail)
    | Block(head: Head, tail: Tail, items: seq<Item>)

  function Lines(items: seq<Item>): seq<string> {
    if items == [] then [] else
    var first :=
      match items[0]
      case Noise(tail) => [TailText(tail)]
      case Stray(pad, text, space) => [pad + (text + space)]
      case Leaf(head, lead, form, tail) => [HeadText(head) + (lead + (FormText(form) + TailText(tail)))]
      case Block(head, tail, sub) => [HeadText(head) + TailText(tail)] + Lines(sub);
    first + Lines(items[1..])
  }

  /** What the items make of the entries of the block they stand in: the last value of a key counts,
      and a block replaces whatever its key held. */
  function Entries(lib: FloatLib, m: map<string, Any>, items: seq<Item>): map<string, Any>
    decreases items
  {
    if items == [] then m else
    var m' :=
      match items[0]
      case Leaf(head, _, form, _) => m[head.key := FormValue(lib, form)]
      case Block(head, _, sub) => m[head.key := Map(Entries(lib, map[], sub))]
      case _ => m;
    Entries(lib, m', items[1..])
  }

  /** A line is in its block if it is indented deeper than the block's header, and not deeper than the
      header of a block directly before it. */
  predicate Fits(indent: nat, outer: int, above: Option<nat>) {
    outer < indent && (above.Some? ==> indent <= above.value)
  }

  /** The items are laid out as a block below a header indented by `outer`, or as a whole document. */
  predicate Laid(items: seq<Item>, outer: int, above: Option<nat>)
    decreases items
  {
    items == [] ||
    match items[0]
    case Noise(tail) => TailOk(tail) && Laid(items[1..], outer, above)
    case Stray(pad, text, space) =>
      && Blanks(pad) && Spaces(space) && Fits(|pad|, outer, above)
      && text != "" && Tight(text) && text[0] != '#' && ':' !in text && '\n' !in text
      && Laid(items[1..], outer, None)
    case Leaf(head, lead, form, tail) =>
      && HeadOk(head) && Spaces(lead) && FormOk(form) && TailOk(tail) && Fits(|head.pad|, outer, above)
      && Laid(items[1..], outer, None)
    case Block(head, tail, sub) =>
      && HeadOk(head) && TailOk(tail) && Fits(|head.pad|, outer, above)
      && Laid(sub, |head.pad|, None) && Laid(items[1..], outer, Some(|head.pad|))
  }

  // ----- reading a document -----

  /** The header that is still open after the items, if any. */
  function Below(items: seq<Item>, above: Option<nat>): Option<nat> {
    if items == [] then above else
    match items[0]
    case Noise(_) => Below(items[1..], above)
    case Block(head, _, _) => Below(items[1..], Some(|head.pad|))
    case _ => Below(items[1..], None)
  }

  /** The path once the block of the header that is still open is left. */
  function Settled(z: Zipper, above: Option<nat>): Zipper {
    match above case Some(i) => PopTo(z, i) case None => z
  }

  ghost predicate Under(base: Zipper, outer: int) {
    base.frames != [] ==> base.frames[|base.frames| - 1].indent <= outer
  }

  lemma SettledPops(z: Zipper, base: Zipper, indent: nat, outer: int, above: Option<nat>)
    requires Settled(z, above) == base && Under(base, outer) && Fits(indent, outer, above)
    ensures PopTo(z, indent) == base
  {
    if above.Some? { PopToTwice(z, indent, above.value); }
  }

  lemma NoiseReads(lib: FloatLib, z: Zipper, tail: Tail)
    requires TailOk(tail)
    ensures ReadLine(lib, z, TailText(tail)) == Ok(z)
  {
    hide Trim, TrimRight, Spaces, PopTo, Bind;
    match tail.comment {
      case None =>
        assert "" + "" + tail.space == TailText(tail);
        assert Spaces("") by { NoSpaces(); }
        TrimAround("", "", tail.space);
      case Some(c) =>
        TrimComment("", tail.space, c);
        assert "" + TailText(tail) == TailText(tail) && "" + (tail.space + "#" + c) == TailText(tail);
    }
  }

  lemma StrayReads(lib: FloatLib, z: Zipper, pad: string, text: string, space: string)
    requires Blanks(pad) && Spaces(space) && text != "" && Tight(text) && text[0] != '#' && ':' !in text
    ensures ReadLine(lib, z, pad + (text + space)) == Ok(PopTo(z, |pad|))
  {
    hide Trim, PopTo, Bind, Indent;
    assert pad + (text + space) == pad + text + space;
    BlanksSpaces(pad);
    TrimAround(pad, text, space);
    IndentOf(pad, text + space);
  }

  lemma LeafReads(lib: FloatLib, z: Zipper, head: Head, lead: string, form: Form, tail: Tail)
    requires HeadOk(head) && Spaces(lead) && FormOk(form) && TailOk(tail)
    ensures var p := PopTo(z, |head.pad|);
            ReadLine(lib, z, HeadText(head) + (lead + (FormText(form) + TailText(tail)))) ==
            Ok(p.(cur := p.cur[head.key := FormValue(lib, form)]))
  {
    hide HeadText, TailText, FormText, FormOk, ValueRead, FormValue, ParseValue, PopTo;
    HeadReads(lib, z, head, lead + (FormText(form) + TailText(tail)));
    FormTight(form);
    JoinedOne(form);
    RestReads(lead, [Segmented(form)], tail);
    FormReads(lib, form);
  }

  lemma JoinedOne(form: Form)
    requires FormOk(form)
    ensures Joined([Segmented(form)]) == FormText(form) && Proper(Segmented(form))
    ensures forall g :: g in [Segmented(form)] ==> g == Segmented(form)
  {
    assert [Segmented(form)][..0] == [];
  }

  lemma HeaderReads(lib: FloatLib, z: Zipper, head: Head, tail: Tail)
    requires HeadOk(head) && TailOk(tail)
    ensures ReadLine(lib, z, HeadText(head) + TailText(tail)) ==
            Ok(Child(PopTo(z, |head.pad|), head.key, |head.pad|))
  {
    hide HeadText, TailText, ValueRead, ParseValue, PopTo;
    HeadReads(lib, z, head, TailText(tail));
    NoSpaces();
    RestReads("", [], tail);
    assert "" + (Joined([]) + TailText(tail)) == TailText(tail);
  }

  /** Leaving a block binds its entries in the block around it. */
  lemma BlockCloses(r: Zipper, base: Zipper, key: string, indent: nat, m: map<string, Any>, below: Option<nat>)
    requires base.frames != [] ==> base.frames[|base.frames| - 1].indent < indent
    requires below.Some? ==> indent < below.value
    requires Settled(r, below) == Zipper(Child(base, key, indent).frames, m)
    ensures Settled(r, Some(indent)) == Zipper(base.frames, base.cur[key := Map(m)])
  {
    BoundChildPops(base, key, m, indent);
    assert base.cur + map[key := Map(m)] == base.cur[key := Map(m)];
    if below.Some? { PopToTwice(r, indent, below.value); }
  }

  lemma {:induction false} BelowDeeper(items: seq<Item>, outer: int, above: Option<nat>)
    requires Laid(items, outer, above) && (above.Some? ==> outer < above.value)
    ensures Below(items, above).Some? ==> outer < Below(items, above).value
    decreases |items|
  {
    hide HeadOk, TailOk, FormOk, Tight, Spaces, Blanks;
    if items != [] {
      match items[0]
      case Noise(_) => BelowDeeper(items[1..], outer, above);
      case Block(head, _, _) => BelowDeeper(items[1..], outer, Some(|head.pad|));
      case _ => BelowDeeper(items[1..], outer, None);
    }
  }

  /** A header and its block, once the block's own lines are known to read right. */
  lemma BlockRead(lib: FloatLib, z: Zipper, base: Zipper, head: Head, tail: Tail, sub: seq<Item>, lines: seq<string>)
    requires HeadOk(head) && TailOk(tail) && PopTo(z, |head.pad|) == base && Laid(sub, |head.pad|, None)
    requires base.frames != [] ==> base.frames[|base.frames| - 1].indent < |head.pad|
    requires var child := Child(base, head.key, |head.pad|);
             var r := ReadLines(lib, child, Lines(sub));
             r.Ok? && Settled(r.value, Below(sub, None)) == Zipper(child.frames, Entries(lib, map[], sub))
    ensures var r := ReadLines(lib, Child(base, head.key, |head.pad|), Lines(sub)).value;
            && ReadLines(lib, z, [HeadText(head) + TailText(tail)] + Lines(sub) + lines) == ReadLines(lib, r, lines)
            && Settled(r, Some(|head.pad|)) == base.(cur := base.cur[head.key := Map(Entries(lib, map[], sub))])
  {
    hide ReadLine, Fold, LineReader, HeadOk, TailOk, HeadText, TailText, PopTo, Lines, Entries, Below, Laid, Settled;
    var child := Child(base, head.key, |head.pad|);
    HeaderReads(lib, z, head, tail);
    FirstRead(lib, z, HeadText(head) + TailText(tail), Lines(sub) + lines, child);
    assert [HeadText(head) + TailText(tail)] + Lines(sub) + lines ==
           [HeadText(head) + TailText(tail)] + (Lines(sub) + lines);
    FoldAppend(LineReader(lib), child, Lines(sub), lines);
    BelowDeeper(sub, |head.pad|, None);
    BlockCloses(ReadLines(lib, child, Lines(sub)).value, base, head.key, |head.pad|, Entries(lib, map[], sub),
                Below(sub, None));
  }

  /** Reading the lines of laid-out items gives the block they stand in exactly their entries. */
  lemma {:induction false} ItemsRead(lib: FloatLib, z: Zipper, base: Zipper, items: seq<Item>, outer: int,
                                     above: Option<nat>)
    requires Settled(z, above) == base && Under(base, outer) && Laid(items, outer, above)
    ensures var r := ReadLines(lib, z, Lines(items));
            r.Ok? && Settled(r.value, Below(items, above)) == Zipper(base.frames, Entries(lib, base.cur, items))
    decreases items
  {
    hide ReadLine, Fold, LineReader, HeadOk, TailOk, FormOk, Tight, Spaces, Blanks, HeadText, TailText, FormText,
         FormValue, PopTo;
    if items == [] {
      FoldNothing(LineReader(lib), z);
    } else {
      var rest := items[1..];
      match items[0] {
        case Noise(tail) =>
          NoiseReads(lib, z, tail);
          FirstRead(lib, z, TailText(tail), Lines(rest), z);
          ItemsRead(lib, z, base, rest, outer, above);
        case Stray(pad, text, space) =>
          StrayReads(lib, z, pad, text, space);
          SettledPops(z, base, |pad|, outer, above);
          FirstRead(lib, z, pad + (text + space), Lines(rest), base);
          ItemsRead(lib, base, base, rest, outer, None);
        case Leaf(head, lead, form, tail) =>
          LeafReads(lib, z, head, lead, form, tail);
          SettledPops(z, base, |head.pad|, outer, above);
          var z' := base.(cur := base.cur[head.key := FormValue(lib, form)]);
          FirstRead(lib, z, HeadText(head) + (lead + (FormText(form) + TailText(tail))), Lines(rest), z');
          ItemsRead(lib, z', z', rest, outer, None);
        case Block(head, tail, sub) =>
          SettledPops(z, base, |head.pad|, outer, above);
          var child := Child(base, head.key, |head.pad|);
          ItemsRead(lib, child, child, sub, |head.pad|, None);
          BlockRead(lib, z, base, head, tail, sub, Lines(rest));
          var r := ReadLines(lib, child, Lines(sub)).value;
          var base' := base.(cur := base.cur[head.key := Map(Entries(lib, map[], sub))]);
          ItemsRead(lib, r, base', rest, outer, Some(|head.pad|));
      }
    }
  }

  lemma FirstRead(lib: FloatLib, z: Zipper, line: string, lines: seq<string>, z': Zipper)
    requires ReadLine(lib, z, line) == Ok(z')
    ensures ReadLines(lib, z, [line] + lines) == ReadLines(lib, z', lines)
  {
    FoldFirst(LineReader(lib), z, line, lines);
  }

  // ----- from lines to text -----

  /** The lines with a line break between any two; a last empty line stands for a final line break. */
  function JoinLines(lines: seq<string>): string {
    if lines == [] then "" else if |lines| == 1 then lines[0] else lines[0] + "\n" + JoinLines(lines[1..])
  }

  lemma {:induction false} SplitJoined(lines: seq<string>)
    requires lines != [] && Unbroken(lines)
    ensures Split(JoinLines(lines), '\n') == lines
    decreases |lines|
  {
    if |lines| == 1 {
      assert lines == [lines[0]];
      SplitNone(lines[0], '\n');
    } else {
      SplitJoined(lines[1..]);
      SplitFirst(lines[0], '\n', JoinLines(lines[1..]));
      assert lines == [lines[0]] + lines[1..];
    }
  }

  lemma PartsUnbroken(h: Head, t: Tail, pad: string)
    ensures HeadOk(h) ==> '\n' !in HeadText(h)
    ensures TailOk(t) ==> '\n' !in TailText(t)
    ensures Spaces(pad) || Blanks(pad) ==> '\n' !in pad
  {
    if HeadOk(h) {
      assert forall c :: c in h.opening || c in h.closing ==> c in h.opening + h.closing;
    }
  }

  lemma {:induction false} LinesUnbroken(items: seq<Item>, outer: int, above: Option<nat>)
    requires Laid(items, outer, above)
    ensures Unbroken(Lines(items))
    decreases items
  {
    hide HeadOk, TailOk, FormOk, Tight, Spaces, Blanks, HeadText, TailText, FormText, Unbroken;
    if items == [] {
      NoLinesUnbroken();
    } else {
      match items[0] {
        case Noise(tail) =>
          LinesUnbroken(items[1..], outer, above);
          PartsUnbroken(Head("", "", "", "", ""), tail, "");
          UnbrokenOne(TailText(tail));
          UnbrokenAppend([TailText(tail)], Lines(items[1..]));
        case Stray(pad, text, space) =>
          LinesUnbroken(items[1..], outer, None);
          PartsUnbroken(Head("", "", "", "", ""), Tail("", None), pad);
          PartsUnbroken(Head("", "", "", "", ""), Tail("", None), space);
          UnbrokenOne(pad + (text + space));
          UnbrokenAppend([pad + (text + space)], Lines(items[1..]));
        case Leaf(head, lead, form, tail) =>
          LinesUnbroken(items[1..], outer, None);
          PartsUnbroken(head, tail, lead);
          FormTight(form);
          UnbrokenOne(HeadText(head) + (lead + (FormText(form) + TailText(tail))));
          UnbrokenAppend([HeadText(head) + (lead + (FormText(form) + TailText(tail)))], Lines(items[1..]));
        case Block(head, tail, sub) =>
          LinesUnbroken(items[1..], outer, Some(|head.pad|));
          LinesUnbroken(sub, |head.pad|, None);
          PartsUnbroken(head, tail, "");
          UnbrokenOne(HeadText(head) + TailText(tail));
          UnbrokenAppend([HeadText(head) + TailText(tail)], Lines(sub));
          UnbrokenAppend([HeadText(head) + TailText(tail)] + Lines(sub), Lines(items[1..]));
      }
    }
  }

  lemma RootOf(r: Zipper, below: Option<nat>, m: map<string, Any>)
    requires Settled(r, below) == Zipper([], m)
    ensures Root(r) == m
  {
    if below.Some? {
      PopToTwice(r, 0, below.value);
      RootIsPopToZero(r);
    }
  }

  /** A document reads as its entries, whatever its indentation, quoting, spacing and comments. */
  lemma DocumentReads(lib: FloatLib, items: seq<Item>)
    requires Laid(items, -1, None)
    ensures Parsed(lib, JoinLines(Lines(items))) == Ok(Map(Entries(lib, map[], items)))
  {
    hide ReadLine, Fold, Lines, Entries, Laid, Split, JoinLines, Below, PopTo;
    var lines := Lines(items);
    LinesUnbroken(items, -1, None);
    ItemsRead(lib, EMPTY, EMPTY, items, -1, None);
    RootOf(ReadLines(lib, EMPTY, lines).value, Below(items, None), Entries(lib, map[], items));
    if lines == [] {
      NothingJoined();
      EmptyLineSkipped(lib, EMPTY);
      FoldOne(LineReader(lib), EMPTY, "");
      FoldNothing(LineReader(lib), EMPTY);
    } else {
      SplitJoined(lines);
    }
  }

  lemma NothingJoined()
    ensures JoinLines([]) == "" && Split("", '\n') == [""]
  {
  }

  // ----- one key -----

  /** A key and a bare word on a line: which value each word stands for. */
  lemma WordRead(lib: FloatLib, k: string, s: string)
    requires PlainKey(k)
    requires s != "" && Tight(s) && '\n' !in s && '#' !in s
    requires (s[0] == '"' || s[0] == '\'') ==> s[|s| - 1] != s[0]
    ensures Lower(s) == "true" || Lower(s) == "yes" || Lower(s) == "on" ==>
              Parsed(lib, k + ": " + s) == Ok(Map(map[k := Bool(true)]))
    ensures Lower(s) == "false" || Lower(s) == "no" || Lower(s) == "off" ==>
              Parsed(lib, k + ": " + s) == Ok(Map(map[k := Bool(false)]))
    ensures Lower(s) == "null" || s == "~" ==> Parsed(lib, k + ": " + s) == Ok(Map(map[k := Nil]))
    ensures Lower(s) !in ["true", "yes", "on", "false", "no", "off", "null"] && s != "~" ==>
              Parsed(lib, k + ": " + s) ==
                if Atoi(s).Some? then Ok(Map(map[k := Int(Atoi(s).value)]))
                else if lib.parse(s).Some? then Ok(Map(map[k := Float(lib.parse(s).value)]))
                else Ok(Map(map[k := Str(s)]))
  {
    hide Trim, Lower, Atoi, Tight, ReadLine, Fold, LineReader, Split, ValueRead, PlainKey;
    TrimFixed(s);
    PlainTextRead(s);
    OneLineRead(lib, k, " " + s);
    assert k + ": " + s == k + ":" + (" " + s);
  }

  /** Between quotes of one kind everything is a string, keywords, numbers and hashes included. */
  lemma QuotedRead(lib: FloatLib, k: string, s: string)
    requires PlainKey(k) && '\n' !in s
    ensures Closed(s, '\'') || ('\'' !in s && '\\' !in s) ==>
              Parsed(lib, k + ": '" + s + "'") == Ok(Map(map[k := Str(s)]))
    ensures Closed(s, '"') || ('"' !in s && '\\' !in s) ==>
              Parsed(lib, k + ": \"" + s + "\"") == Ok(Map(map[k := Str(s)]))
  {
    hide Parsed, PlainKey;
    NoQuoteClosed(s, '\'');
    NoQuoteClosed(s, '"');
    if Closed(s, '\'') { FormOnLine(lib, k, InSingle(s)); }
    if Closed(s, '"') { FormOnLine(lib, k, InDouble(s)); }
    assert k + ": '" + s + "'" == k + ":" + (" " + FormText(InSingle(s)));
    assert k + ": \"" + s + "\"" == k + ":" + (" " + FormText(InDouble(s)));
  }

  lemma {:induction false} NoQuoteClosed(s: string, quote: char)
    ensures quote !in s && '\\' !in s ==> Closed(s, quote)
    decreases |s|
  {
    if s != "" { NoQuoteClosed(s[1..], quote); }
  }

  lemma FormOnLine(lib: FloatLib, k: string, f: Form)
    requires PlainKey(k) && FormOk(f)
    ensures Parsed(lib, k + ":" + (" " + FormText(f))) == Ok(Map(map[k := FormValue(lib, f)]))
  {
    hide ReadLine, Fold, LineReader, Split, PlainKey, FormText, FormOk, ParseValue, FormValue, ValueRead, Parsed;
    FormTight(f);
    JoinedOne(f);
    assert Spaces(" ") by { OneSpace(); }
    RestReads(" ", [Segmented(f)], Tail("", None));
    assert " " + (FormText(f) + TailText(Tail("", None))) == " " + FormText(f);
    FormReads(lib, f);
    OneLineRead(lib, k, " " + FormText(f));
  }

  lemma OneSpace()
    ensures Spaces(" ")
  {
  }

  lemma OneLineRead(lib: FloatLib, k: string, rest: string)
    requires PlainKey(k) && '\n' !in rest && ValueRead(rest) != "" && ParseValue(lib, ValueRead(rest)).Ok?
    ensures Parsed(lib, k + ":" + rest) == Ok(Map(map[k := ParseValue(lib, ValueRead(rest)).value]))
  {
    hide ReadLine, Fold, Split, ParseValue, ValueRead;
    var line := k + ":" + rest;
    SplitNone(line, '\n');
    FoldOne(LineReader(lib), EMPTY, line);
    ReadPrintedLine(lib, EMPTY, k, rest, 0);
    assert Pad(0) + (k + ":" + rest) == line;
    assert LineReader(lib)(EMPTY, line) == ReadLine(lib, EMPTY, line);
  }
}
