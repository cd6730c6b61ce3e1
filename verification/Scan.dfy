/** Finding placeholders in a text: the regular expressions the broker uses, and one-pass expansion. */
module Scan {
  import opened Text
  import opened Pieces

  /** `[0-9]`, `[A-Za-z\-_]`, and what may stand in a quoted value. */
  datatype Class = Digit | NameChar | Quoted {
    predicate Has(c: char) {
      match this
      case Digit => '0' <= c <= '9'
      case NameChar => 'A' <= c <= 'Z' || 'a' <= c <= 'z' || c == '-' || c == '_'
      case Quoted => c != '"' && c != '$' && c != '\n'
    }
  }

  /**
   * One of several fixed keys; a fixed head followed by one or more characters of a class;
   * or either of two patterns, the left one first.
   */
  datatype Pattern =
    | OneOf(keys: seq<string>)
    | Repeat(head: string, class_: Class)
    | Either(left: Pattern, right: Pattern)

  const PORT_HEAD := "$port_"
  const ENV_HEAD := "$env_"
  const PORTS := Repeat(PORT_HEAD, Digit)
  const ENVS := Repeat(ENV_HEAD, NameChar)

  predicate ValidPattern(pat: Pattern) {
    match pat
    case OneOf(keys) => AllKeys(keys)
    case Repeat(head, cl) => IsKey(head) && !cl.Has('$')
    case Either(l, r) => ValidPattern(l) && ValidPattern(r)
  }

  /** The length of the longest run of `cl` at the head of `s`. */
  function Span(cl: Class, s: string): (n: nat)
    ensures n <= |s|
    ensures forall i :: 0 <= i < n ==> cl.Has(s[i])
    ensures n < |s| ==> !cl.Has(s[n])
  {
    if s != "" && cl.Has(s[0]) then 1 + Span(cl, s[1..]) else 0
  }

  function FirstKey(keys: seq<string>, s: string): (n: nat)
    ensures n <= |s| && (n > 0 ==> s[..n] in keys)
  {
    if keys == [] then 0
    else if keys[0] <= s then assert keys[0] == s[..|keys[0]|]; |keys[0]|
    else FirstKey(keys[1..], s)
  }

  /** How much of the head of `s` the pattern matches; 0 when it does not match there. */
  function MatchLen(pat: Pattern, s: string): (n: nat)
    ensures n <= |s|
  {
    match pat
    case OneOf(keys) => FirstKey(keys, s)
    case Repeat(head, cl) =>
      if head <= s && Span(cl, s[|head|..]) > 0 then |head| + Span(cl, s[|head|..]) else 0
    case Either(l, r) => if MatchLen(l, s) > 0 then MatchLen(l, s) else MatchLen(r, s)
  }

  /** How far one scanning step goes: over a match, or over one character. */
  function Step(pat: Pattern, s: string): (m: nat)
    requires s != ""
    ensures 1 <= m <= |s|
  {
    if MatchLen(pat, s) > 0 then MatchLen(pat, s) else 1
  }

  function HeadPiece(pat: Pattern, s: string): (p: Piece)
    requires s != ""
    ensures Show(p, {}, map[]) == s[..Step(pat, s)]
  {
    if MatchLen(pat, s) > 0 then Tok(s[..MatchLen(pat, s)]) else Ch(s[0])
  }

  /** Leftmost non-overlapping matches, with the characters between them. */
  function Parse(pat: Pattern, s: string): seq<Piece> {
    if s == "" then [] else [HeadPiece(pat, s)] + Parse(pat, s[Step(pat, s)..])
  }

  /** `regexp.FindAllString(s, -1)`. */
  function FindAll(pat: Pattern, s: string): (toks: seq<string>)
    ensures forall i :: 0 <= i < |toks| ==> |toks[i]| > 0
  {
    if s == "" then []
    else
      var n := MatchLen(pat, s);
      if n > 0 then [s[..n]] + FindAll(pat, s[n..]) else FindAll(pat, s[1..])
  }

  /** The meaning of a template: every placeholder, read left to right, stands for its value. */
  function Expand(pat: Pattern, s: string, val: map<string, string>): string {
    if s == "" then ""
    else
      var n := MatchLen(pat, s);
      if n > 0 then Lookup(val, s[..n]) + Expand(pat, s[n..], val) else [s[0]] + Expand(pat, s[1..], val)
  }

  /** What the expansion shows for the head of a text. */
  function Shown(pat: Pattern, s: string, val: map<string, string>): string
    requires s != ""
  {
    if MatchLen(pat, s) > 0 then Lookup(val, s[..MatchLen(pat, s)]) else [s[0]]
  }

  lemma ExpandStep(pat: Pattern, s: string, val: map<string, string>)
    requires s != ""
    ensures Expand(pat, s, val) == Shown(pat, s, val) + Expand(pat, s[Step(pat, s)..], val)
  {
  }

  lemma MatchIsKey(pat: Pattern, s: string)
    requires ValidPattern(pat) && MatchLen(pat, s) > 0
    ensures IsKey(s[..MatchLen(pat, s)])
  {
    if pat.Repeat? {
      var t := s[..MatchLen(pat, s)];
      forall i | 1 <= i < |t| ensures t[i] != '$' {
        if i < |pat.head| {
          assert t[i] == pat.head[i] == pat.head[1..][i-1];
        } else {
          assert t[i] == s[|pat.head|..][i-|pat.head|];
        }
      }
    }
  }

  lemma {:induction false} ParseKeys(pat: Pattern, s: string)
    requires ValidPattern(pat)
    ensures WellFormed(Parse(pat, s))
  {
    if s != "" {
      ParseKeys(pat, s[Step(pat, s)..]);
      if MatchLen(pat, s) > 0 {
        MatchIsKey(pat, s);
      }
    }
  }

  lemma RenderStep(pat: Pattern, s: string)
    requires s != ""
    ensures Render(Parse(pat, s)) == s[..Step(pat, s)] + Render(Parse(pat, s[Step(pat, s)..]))
  {
    FillCons(HeadPiece(pat, s), Parse(pat, s[Step(pat, s)..]), {}, map[]);
  }

  lemma {:induction false} ParseText(pat: Pattern, s: string)
    ensures Render(Parse(pat, s)) == s
  {
    if s != "" {
      RenderStep(pat, s);
      ParseText(pat, s[Step(pat, s)..]);
      TakeDrop(s, Step(pat, s));
    }
  }

  lemma ParseRenders(pat: Pattern, s: string)
    requires ValidPattern(pat)
    ensures Render(Parse(pat, s)) == s && WellFormed(Parse(pat, s))
  {
    ParseText(pat, s);
    ParseKeys(pat, s);
  }

  lemma {:induction false} FindAllIsTokens(pat: Pattern, s: string)
    requires ValidPattern(pat)
    ensures FindAll(pat, s) == Tokens(Parse(pat, s)) && AllKeys(FindAll(pat, s))
  {
    if s != "" {
      var n := MatchLen(pat, s);
      if n > 0 {
        MatchIsKey(pat, s);
        FindAllIsTokens(pat, s[n..]);
        assert ([Tok(s[..n])] + Parse(pat, s[n..]))[1..] == Parse(pat, s[n..]);
      } else {
        FindAllIsTokens(pat, s[1..]);
        assert ([Ch(s[0])] + Parse(pat, s[1..]))[1..] == Parse(pat, s[1..]);
      }
    }
  }

  lemma {:induction false} ExpandIsFill(pat: Pattern, s: string, done: set<string>, val: map<string, string>)
    requires forall t :: t in FindAll(pat, s) ==> t in done
    ensures Expand(pat, s, val) == Fill(Parse(pat, s), done, val)
  {
    if s != "" {
      var n := MatchLen(pat, s);
      if n > 0 {
        assert s[..n] in FindAll(pat, s);
        forall t | t in FindAll(pat, s[n..]) ensures t in done { assert t in FindAll(pat, s); }
        ExpandIsFill(pat, s[n..], done, val);
      } else {
        ExpandIsFill(pat, s[1..], done, val);
      }
    }
  }

  /** The text of a repeat match is its head and a run of the class. */
  lemma {:induction false} FindAllShape(pat: Pattern, s: string, t: string)
    requires pat.Repeat? && t in FindAll(pat, s)
    ensures pat.head <= t && |t| > |pat.head|
    ensures forall i :: |pat.head| <= i < |t| ==> pat.class_.Has(t[i])
  {
    var n := MatchLen(pat, s);
    if n > 0 && t == s[..n] {
      assert forall i :: |pat.head| <= i < n ==> s[i] == s[|pat.head|..][i-|pat.head|];
    } else {
      FindAllShape(pat, if n > 0 then s[n..] else s[1..], t);
    }
  }

  lemma TokenSplit(pat: Pattern, s: string, t: string, x: char)
    requires ValidPattern(pat) && pat.Repeat? && t in FindAll(pat, s)
    requires x !in pat.head && !pat.class_.Has(x)
    ensures |t| >= |pat.head| && t == pat.head + t[|pat.head|..] && NoDollar(t[|pat.head|..]) && x !in t
  {
    FindAllShape(pat, s, t);
    MatchSplit(pat, t, x);
  }

  lemma MatchSplit(pat: Pattern, t: string, x: char)
    requires ValidPattern(pat) && pat.Repeat? && Matches(pat, t) && x !in pat.head && !pat.class_.Has(x)
    ensures t == pat.head + t[|pat.head|..] && NoDollar(t[|pat.head|..]) && x !in t
  {
    assert forall i :: |pat.head| <= i < |t| ==> t[|pat.head|..][i-|pat.head|] == t[i];
    assert forall i :: 0 <= i < |pat.head| ==> t[i] == pat.head[i];
  }

  lemma {:induction false} ExpandAgrees(pat: Pattern, s: string, v: map<string, string>, w: map<string, string>)
    requires forall t :: t in FindAll(pat, s) ==> Lookup(v, t) == Lookup(w, t)
    ensures Expand(pat, s, v) == Expand(pat, s, w)
  {
    if s != "" {
      var n := MatchLen(pat, s);
      if n > 0 {
        assert s[..n] in FindAll(pat, s);
        forall t | t in FindAll(pat, s[n..]) ensures Lookup(v, t) == Lookup(w, t) { assert t in FindAll(pat, s); }
        ExpandAgrees(pat, s[n..], v, w);
      } else {
        ExpandAgrees(pat, s[1..], v, w);
      }
    }
  }

  // ------------------------------------------------ two conditions that make a chain safe

  /** `t` could grow into a match if more text followed it. */
  predicate Extensible(pat: Pattern, t: string) {
    match pat
    case OneOf(keys) => exists i :: 0 <= i < |keys| && ProperPrefix(t, keys[i])
    case Repeat(head, cl) => t <= head || (head <= t && forall i :: |head| <= i < |t| ==> cl.Has(t[i]))
    case Either(l, r) => Extensible(l, t) || Extensible(r, t)
  }

  /** The length of the longest prefix without `$`. */
  function PlainLen(s: string): (n: nat)
    ensures n <= |s| && NoDollar(s[..n]) && (n < |s| ==> s[n] == '$')
  {
    if s == "" || s[0] == '$' then 0
    else
      assert s[..1+PlainLen(s[1..])] == [s[0]] + s[1..][..PlainLen(s[1..])];
      1 + PlainLen(s[1..])
  }

  /** A `$` and the text after it up to the next `$`. */
  function HeadSegment(s: string): (seg: string)
    requires s != "" && s[0] == '$'
    ensures seg <= s && IsKey(seg)
  {
    assert s[..1+PlainLen(s[1..])][1..] == s[1..][..PlainLen(s[1..])];
    s[..1+PlainLen(s[1..])]
  }

  /** No `$` whose text could still grow into a placeholder stands right before a placeholder. */
  predicate Separated(pat: Pattern, s: string) {
    s == "" ||
    (&& (s[0] == '$' && MatchLen(pat, s[|HeadSegment(s)|..]) > 0 ==> !Extensible(pat, HeadSegment(s)))
     && Separated(pat, s[1..]))
  }

  lemma {:induction false} SeparatedDrop(pat: Pattern, s: string, n: nat)
    requires n <= |s| && Separated(pat, s)
    ensures Separated(pat, s[n..])
  {
    if n > 0 {
      SeparatedDrop(pat, s[1..], n - 1);
      assert s[1..][n-1..] == s[n..];
    }
  }

  /** No placeholder is a proper prefix of one that is not replaced before it. */
  predicate ShorterLast(toks: seq<string>) {
    forall i, t :: 0 <= i < |toks| && t in toks && t !in toks[..i] ==> !ProperPrefix(toks[i], t)
  }

  /** A text the repeat pattern matches as a whole. */
  predicate Matches(pat: Pattern, k: string)
    requires pat.Repeat?
  {
    pat.head <= k && |k| > |pat.head| && forall i :: |pat.head| <= i < |k| ==> pat.class_.Has(k[i])
  }

  lemma SegmentOfRender(ps: seq<Piece>, k: string)
    requires WellFormed(ps) && Live(ps, {}) && k <= Segment(ps)
    ensures k <= Render(ps)
  {
    FillLive(ps, {}, map[]);
    PrefixExtends(k, Segment(ps), Fill(AfterRun(ps[1..]), {}, map[]));
  }

  lemma {:induction false} MatchedText(pat: Pattern, s: string, k: string)
    requires pat.Repeat? && Matches(pat, k) && k <= s
    ensures MatchLen(pat, s) > 0
  {
    assert pat.head == k[..|pat.head|] == s[..|pat.head|];
    assert s[|pat.head|..][0] == k[|pat.head|];
  }

  lemma PrefixOfMatch(pat: Pattern, t: string, k: string)
    requires pat.Repeat? && Matches(pat, k) && t <= k
    ensures Extensible(pat, t)
  {
    if |t| <= |pat.head| {
      assert t == k[..|t|] == pat.head[..|t|];
    } else {
      assert pat.head == k[..|pat.head|] == t[..|pat.head|];
    }
  }

  /** A whole match that begins a maximal match, or more text after it, is a prefix of it. */
  lemma LongestMatch(pat: Pattern, s: string, r: string, k: string)
    requires ValidPattern(pat) && pat.Repeat? && MatchLen(pat, s) > 0
    requires r <= s[MatchLen(pat, s)..]
    requires Matches(pat, k) && k <= s[..MatchLen(pat, s)] + r
    ensures k <= s[..MatchLen(pat, s)]
  {
    var n := MatchLen(pat, s);
    if r != "" {
      assert r[0] == s[n..][0] == s[|pat.head|..][n - |pat.head|];
    }
    PrefixOfConcat(k, s[..n], r);
  }

  lemma {:induction false} RunIsPrefix(ps: seq<Piece>)
    requires WellFormed(ps)
    ensures Run(ps) <= Render(ps)
  {
    FillSegment(ps, {}, map[]);
  }

  lemma NoMatchWithoutDollar(pat: Pattern, s: string)
    requires ValidPattern(pat) && s != "" && s[0] != '$'
    ensures MatchLen(pat, s) == 0
  {
    if MatchLen(pat, s) > 0 {
      MatchIsKey(pat, s);
    }
  }

  lemma {:induction false} RunOfParse(pat: Pattern, s: string)
    requires ValidPattern(pat)
    ensures Run(Parse(pat, s)) == s[..PlainLen(s)]
    ensures AfterRun(Parse(pat, s)) == Parse(pat, s[PlainLen(s)..])
  {
    if s != "" && s[0] != '$' {
      NoMatchWithoutDollar(pat, s);
      RunOfParse(pat, s[1..]);
      RunCons(s[0], Parse(pat, s[1..]));
      SliceSlice(s, 1, PlainLen(s[1..]));
      assert s[..1] == [s[0]];
    } else if s != "" {
      assert Run(Parse(pat, s)) == "" && AfterRun(Parse(pat, s)) == Parse(pat, s);
      assert s[..0] == "" && s[0..] == s;
    }
  }

  lemma RunCons(c: char, ps: seq<Piece>)
    requires c != '$'
    ensures Run([Ch(c)] + ps) == [c] + Run(ps) && AfterRun([Ch(c)] + ps) == AfterRun(ps)
  {
    assert ([Ch(c)] + ps)[1..] == ps;
  }

  lemma {:induction false} PlainLenSkip(s: string, n: nat)
    requires n <= |s| && NoDollar(s[..n])
    ensures PlainLen(s) == n + PlainLen(s[n..])
  {
    if n > 0 {
      assert s[0] == s[..n][0];
      assert s[1..][..n-1] == s[..n][1..];
      PlainLenSkip(s[1..], n - 1);
      assert s[1..][n-1..] == s[n..];
    }
  }

  lemma SegmentSplit(s: string, m: nat)
    requires s != "" && s[0] == '$' && 1 <= m <= |s| && NoDollar(s[..m][1..])
    ensures HeadSegment(s) == s[..m] + s[m..][..PlainLen(s[m..])]
    ensures s[|HeadSegment(s)|..] == s[m..][PlainLen(s[m..])..]
  {
    SegmentLength(s, m);
    SliceSlice(s, m, PlainLen(s[m..]));
  }

  lemma SegmentLength(s: string, m: nat)
    requires s != "" && s[0] == '$' && 1 <= m <= |s| && NoDollar(s[..m][1..])
    ensures HeadSegment(s) == s[..m+PlainLen(s[m..])]
  {
    assert s[..m][1..] == s[1..][..m-1];
    PlainLenSkip(s[1..], m - 1);
    assert s[1..][m-1..] == s[m..];
  }

  /** The fixed text of a parsed `$`, and what follows it, read off the string. */
  lemma ParseSegment(pat: Pattern, s: string)
    requires ValidPattern(pat) && s != "" && s[0] == '$'
    ensures Segment(Parse(pat, s)) == HeadSegment(s)
    ensures AfterRun(Parse(pat, s)[1..]) == Parse(pat, s[|HeadSegment(s)|..])
  {
    var m := Step(pat, s);
    if MatchLen(pat, s) > 0 {
      MatchIsKey(pat, s);
    }
    SegmentSplit(s, m);
    RunOfParse(pat, s[m..]);
    assert Parse(pat, s)[1..] == Parse(pat, s[m..]);
    assert [s[0]] == s[..1];
  }

  lemma SafeHeadParse(pat: Pattern, s: string, done: set<string>, k: string)
    requires ValidPattern(pat) && pat.Repeat? && Matches(pat, k)
    requires Separated(pat, s)
    requires forall t :: t in FindAll(pat, s) && t !in done ==> !ProperPrefix(k, t)
    ensures SafeHead(Parse(pat, s), done, k)
  {
    var ps, n := Parse(pat, s), MatchLen(pat, s);
    ParseRenders(pat, s);
    if n > 0 {
      assert s[..n] in FindAll(pat, s);
      MatchIsKey(pat, s);
    }
    if s != "" && s[0] == '$' {
      ParseSegment(pat, s);
    }
    if Live(ps, done) && ps[0] != Tok(k) && Captures(ps, done, k) {
      assert Live(ps, {});
      if !(k <= Segment(ps)) {
        PrefixOfMatch(pat, Segment(ps), k);
        assert false;
      } else if n == 0 {
        SegmentOfRender(ps, k);
        MatchedText(pat, s, k);
        assert false;
      } else {
        ParseRenders(pat, s[n..]);
        RunIsPrefix(Parse(pat, s[n..]));
        assert ps[1..] == Parse(pat, s[n..]);
        LongestMatch(pat, s, Run(ps[1..]), k);
        assert false;
      }
    }
  }

  lemma {:induction false} SafeStepParse(pat: Pattern, s: string, done: set<string>, k: string)
    requires ValidPattern(pat) && pat.Repeat? && Matches(pat, k)
    requires Separated(pat, s)
    requires forall t :: t in FindAll(pat, s) && t !in done ==> !ProperPrefix(k, t)
    ensures SafeStep(Parse(pat, s), done, k)
  {
    if s != "" {
      SafeHeadParse(pat, s, done, k);
      var rest := s[Step(pat, s)..];
      forall t | t in FindAll(pat, rest) && t !in done ensures !ProperPrefix(k, t) {
        assert t in FindAll(pat, s);
      }
      SeparatedDrop(pat, s, Step(pat, s));
      SafeStepParse(pat, rest, done, k);
    }
  }

  /** Separated placeholders of which none is a proper prefix of a later one can be replaced one by one. */
  lemma SeparatedIsSafe(pat: Pattern, s: string)
    requires ValidPattern(pat) && pat.Repeat?
    requires Separated(pat, s) && ShorterLast(FindAll(pat, s))
    ensures Safe(Parse(pat, s), FindAll(pat, s))
  {
    var toks := FindAll(pat, s);
    forall j | 0 <= j < |toks| ensures SafeStep(Parse(pat, s), Elems(toks[..j]), toks[j]) {
      FindAllShape(pat, s, toks[j]);
      LaterIsNoLonger(toks, j);
      SafeStepParse(pat, s, Elems(toks[..j]), toks[j]);
    }
  }

  lemma LaterIsNoLonger(toks: seq<string>, j: nat)
    requires ShorterLast(toks) && j < |toks|
    ensures forall t :: t in toks && t !in Elems(toks[..j]) ==> !ProperPrefix(toks[j], t)
  {
    forall t | t in toks && t !in Elems(toks[..j]) ensures !ProperPrefix(toks[j], t) {
      assert t !in toks[..j];
    }
  }

  // ------------------------------------------------ scanning a partly rewritten text

  /** What matches at a `$` depends on the text up to the next `$` only, unless that text could still grow. */
  lemma {:induction false} MatchIsLocal(pat: Pattern, seg: string, x: string)
    requires ValidPattern(pat) && IsKey(seg)
    requires x == "" || x[0] == '$' || !Extensible(pat, seg)
    ensures MatchLen(pat, seg + x) == MatchLen(pat, seg)
  {
    match pat
    case OneOf(keys) => FirstKeyIsLocal(keys, seg, x);
    case Repeat(head, cl) =>
      KeyChars(head);
      if head <= seg + x {
        PrefixOfConcat(head, seg, x);
        if head <= seg {
          assert (seg + x)[|head|..] == seg[|head|..] + x;
          var n := Span(cl, seg[|head|..]);
          SpanIsLocal(cl, seg[|head|..], x);
        }
      } else if head <= seg {
        PrefixExtends(head, seg, x);
      }
    case Either(l, r) =>
      MatchIsLocal(l, seg, x);
      MatchIsLocal(r, seg, x);
  }

  lemma {:induction false} FirstKeyIsLocal(keys: seq<string>, seg: string, x: string)
    requires AllKeys(keys) && IsKey(seg)
    requires x == "" || x[0] == '$' || !Extensible(OneOf(keys), seg)
    ensures FirstKey(keys, seg + x) == FirstKey(keys, seg)
  {
    if keys != [] {
      var k := keys[0];
      if k <= seg {
        PrefixExtends(k, seg, x);
      } else if k <= seg + x {
        KeyChars(k);
        PrefixOfConcat(k, seg, x);
        assert false;
      } else {
        assert forall i :: 0 <= i < |keys| - 1 ==> keys[1..][i] == keys[i+1];
        FirstKeyIsLocal(keys[1..], seg, x);
      }
    }
  }

  lemma {:induction false} SpanIsLocal(cl: Class, a: string, x: string)
    requires Span(cl, a) < |a| || x == "" || !cl.Has(x[0])
    ensures Span(cl, a + x) == Span(cl, a)
  {
    if a == "" {
      assert a + x == x;
    } else {
      assert (a + x)[1..] == a[1..] + x;
      if cl.Has(a[0]) {
        SpanIsLocal(cl, a[1..], x);
      }
    }
  }

  /** What begins at a standing `$` is the same before and after other placeholders are replaced. */
  lemma SameMatch(pat: Pattern, s: string, done: set<string>, val: map<string, string>)
    requires ValidPattern(pat) && PlainValues(val)
    requires s != "" && Separated(pat, s) && Live(Parse(pat, s), done)
    ensures MatchLen(pat, Fill(Parse(pat, s), done, val)) == MatchLen(pat, s)
  {
    var ps := Parse(pat, s);
    ParseRenders(pat, s);
    var seg, q := Segment(ps), AfterRun(ps[1..]);
    if MatchLen(pat, s) > 0 {
      MatchIsKey(pat, s);
    }
    ParseSegment(pat, s);
    FillLive(ps, done, val);
    FillLive(ps, {}, map[]);
    assert q != [] && q[0].Tok? ==> IsKey(q[0].key);
    MatchIsLocal(pat, seg, Fill(q, {}, map[]));
    MatchIsLocal(pat, seg, Fill(q, done, val));
  }

  function Chars(s: string): (ps: seq<Piece>)
    ensures |ps| == |s| && forall i :: 0 <= i < |s| ==> ps[i] == Ch(s[i])
  {
    if s == "" then [] else [Ch(s[0])] + Chars(s[1..])
  }

  /** The pieces left when the placeholders in `done` have become text. */
  function Flat(ps: seq<Piece>, done: set<string>, val: map<string, string>): seq<Piece> {
    if ps == [] then []
    else if ps[0].Tok? && ps[0].key in done then Chars(Lookup(val, ps[0].key)) + Flat(ps[1..], done, val)
    else [ps[0]] + Flat(ps[1..], done, val)
  }

  /** Parsing the partly rewritten text yields the remaining placeholders and text, in order. */
  lemma {:induction false} ParseFilled(pat: Pattern, s: string, done: set<string>, val: map<string, string>)
    requires ValidPattern(pat) && PlainValues(val) && Separated(pat, s)
    ensures Parse(pat, Fill(Parse(pat, s), done, val)) == Flat(Parse(pat, s), done, val)
  {
    if s != "" {
      SeparatedDrop(pat, s, Step(pat, s));
      ParseFilled(pat, s[Step(pat, s)..], done, val);
      ParseFilledHead(pat, s, done, val);
    }
  }

  lemma ParseFilledHead(pat: Pattern, s: string, done: set<string>, val: map<string, string>)
    requires ValidPattern(pat) && PlainValues(val) && Separated(pat, s) && s != ""
    ensures var ps := Parse(pat, s);
            Parse(pat, Fill(ps, done, val)) ==
            (if Live(ps, done) || ps[0].Ch? then [ps[0]] else Chars(Lookup(val, ps[0].key))) +
            Parse(pat, Fill(ps[1..], done, val))
  {
    var ps := Parse(pat, s);
    var rest := Fill(ps[1..], done, val);
    if Live(ps, done) {
      SameMatch(pat, s, done, val);
      ParseHead(pat, Show(ps[0], done, val), rest);
    } else if ps[0].Ch? {
      NoMatchWithoutDollar(pat, Fill(ps, done, val));
      ParseHead(pat, Show(ps[0], done, val), rest);
    } else {
      ParsePlain(pat, Lookup(val, ps[0].key), rest);
    }
  }

  lemma ParseHead(pat: Pattern, h: string, t: string)
    requires h != "" && (MatchLen(pat, h + t) == |h| || (MatchLen(pat, h + t) == 0 && |h| == 1))
    ensures Parse(pat, h + t) == [if MatchLen(pat, h + t) > 0 then Tok(h) else Ch(h[0])] + Parse(pat, t)
  {
    assert (h + t)[..|h|] == h && (h + t)[|h|..] == t;
  }

  lemma {:induction false} ParsePlain(pat: Pattern, p: string, t: string)
    requires ValidPattern(pat) && NoDollar(p)
    ensures Parse(pat, p + t) == Chars(p) + Parse(pat, t)
  {
    if p == "" {
      assert p + t == t;
    } else {
      ConcatHead(p, t);
      NoMatchWithoutDollar(pat, p + t);
      ParseHead(pat, p[..1], p[1..] + t);
      ParsePlain(pat, p[1..], t);
      CharsCons(p, Parse(pat, t));
    }
  }

  lemma ConcatHead(p: string, t: string)
    requires p != ""
    ensures p + t == p[..1] + (p[1..] + t)
  {
  }

  lemma CharsCons(p: string, ps: seq<Piece>)
    requires p != ""
    ensures Chars(p) + ps == [Ch(p[0])] + (Chars(p[1..]) + ps)
  {
  }

  function Without(toks: seq<string>, done: set<string>): seq<string> {
    if toks == [] then []
    else if toks[0] in done then Without(toks[1..], done)
    else [toks[0]] + Without(toks[1..], done)
  }

  lemma {:induction false} WithoutElems(toks: seq<string>, done: set<string>)
    ensures forall t :: t in Without(toks, done) <==> t in toks && t !in done
  {
    if toks != [] {
      WithoutElems(toks[1..], done);
    }
  }

  lemma {:induction false} TokensFlat(ps: seq<Piece>, done: set<string>, val: map<string, string>)
    ensures Tokens(Flat(ps, done, val)) == Without(Tokens(ps), done)
  {
    if ps != [] {
      TokensFlat(ps[1..], done, val);
      var rest := Flat(ps[1..], done, val);
      if ps[0].Tok? && ps[0].key in done {
        TokensChars(Lookup(val, ps[0].key), rest);
      } else {
        assert ([ps[0]] + rest)[1..] == rest;
      }
    }
  }

  lemma {:induction false} TokensChars(s: string, ps: seq<Piece>)
    ensures Tokens(Chars(s) + ps) == Tokens(ps)
  {
    if s == "" {
      assert Chars(s) + ps == ps;
    } else {
      assert (Chars(s) + ps)[1..] == Chars(s[1..]) + ps;
      TokensChars(s[1..], ps);
    }
  }

  /** Scanning the partly rewritten text finds exactly the placeholders not yet replaced, in order. */
  lemma FindAllRemaining(pat: Pattern, s: string, done: set<string>, val: map<string, string>)
    requires ValidPattern(pat) && PlainValues(val) && Separated(pat, s)
    ensures FindAll(pat, Fill(Parse(pat, s), done, val)) == Without(FindAll(pat, s), done)
  {
    ParseFilled(pat, s, done, val);
    TokensFlat(Parse(pat, s), done, val);
    FindAllIsTokens(pat, s);
    FindAllIsTokens(pat, Fill(Parse(pat, s), done, val));
  }

  // ------------------------------------------------ fixed keys

  predicate PrefixFree(keys: seq<string>) {
    forall i, j :: 0 <= i < |keys| && 0 <= j < |keys| && i != j ==> !(keys[i] <= keys[j])
  }

  lemma {:induction false} KeyFound(keys: seq<string>, s: string, k: string)
    requires AllKeys(keys) && k in keys && k <= s
    ensures FirstKey(keys, s) > 0
  {
    if !(keys[0] <= s) {
      KeyFound(keys[1..], s, k);
    }
  }

  lemma SafeHeadKeys(keys: seq<string>, s: string, done: set<string>, k: string)
    requires AllKeys(keys) && PrefixFree(keys) && k in keys && s != ""
    requires Separated(OneOf(keys), s)
    ensures SafeHead(Parse(OneOf(keys), s), done, k)
  {
    var pat := OneOf(keys);
    var ps, n := Parse(pat, s), MatchLen(pat, s);
    ParseRenders(pat, s);
    if s[0] == '$' {
      ParseSegment(pat, s);
    }
    if n > 0 {
      MatchIsKey(pat, s);
    }
    if Live(ps, done) && ps[0] != Tok(k) && Captures(ps, done, k) {
      var i :| 0 <= i < |keys| && keys[i] == k;
      if k <= Segment(ps) {
        SegmentOfRender(ps, k);
        KeyFound(keys, s, k);
        var j :| 0 <= j < |keys| && keys[j] == s[..n];
        PrefixesCompare(keys[i], keys[j], s);
        assert false;
      }
    }
  }

  lemma PrefixesCompare(a: string, b: string, s: string)
    requires a <= s && b <= s
    ensures a <= b || b <= a
  {
    if |a| <= |b| {
      assert a == s[..|a|] == b[..|a|];
    } else {
      assert b == s[..|b|] == a[..|b|];
    }
  }

  lemma {:induction false} SafeStepKeys(keys: seq<string>, s: string, done: set<string>, k: string)
    requires AllKeys(keys) && PrefixFree(keys) && k in keys && Separated(OneOf(keys), s)
    ensures SafeStep(Parse(OneOf(keys), s), done, k)
  {
    if s != "" {
      var m := Step(OneOf(keys), s);
      SafeHeadKeys(keys, s, done, k);
      SeparatedDrop(OneOf(keys), s, m);
      SafeStepKeys(keys, s[m..], done, k);
    }
  }

  /** Keys of which none is a prefix of another can be replaced one by one, in any order. */
  lemma KeysAreSafe(keys: seq<string>, order: seq<string>, s: string)
    requires AllKeys(keys) && PrefixFree(keys) && Separated(OneOf(keys), s)
    requires forall k :: k in order ==> k in keys
    ensures Safe(Parse(OneOf(keys), s), order)
  {
    forall j | 0 <= j < |order| ensures SafeStep(Parse(OneOf(keys), s), Elems(order[..j]), order[j]) {
      SafeStepKeys(keys, s, Elems(order[..j]), order[j]);
    }
  }

  // ------------------------------------------------ keys in their order

  /** The first key in the order that begins the text is the one found. */
  lemma {:induction false} FirstKeyWins(keys: seq<string>, s: string, i: nat)
    requires AllKeys(keys) && i < |keys| && keys[i] <= s
    ensures FirstKey(keys, s) > 0 && s[..FirstKey(keys, s)] in keys[..i+1]
  {
    if keys[0] <= s {
      assert keys[0] == s[..|keys[0]|];
    } else {
      FirstKeyWins(keys[1..], s, i - 1);
      assert keys[1..][..i] == keys[..i+1][1..];
    }
  }

  /** The place of the key that is found: it begins the text, and no key before it does. */
  lemma {:induction false} FirstKeyPlace(keys: seq<string>, s: string) returns (i: nat)
    requires AllKeys(keys) && FirstKey(keys, s) > 0
    ensures i < |keys| && keys[i] == s[..FirstKey(keys, s)] && keys[i] <= s && forall u :: u in keys[..i] ==> !(u <= s)
  {
    if keys[0] <= s {
      i := 0;
    } else {
      var j := FirstKeyPlace(keys[1..], s);
      i := j + 1;
      assert keys[..i] == [keys[0]] + keys[1..][..j];
    }
  }

  lemma {:induction false} FirstKeyIs(keys: seq<string>, s: string, i: nat)
    requires AllKeys(keys) && i < |keys| && keys[i] <= s && forall u :: u in keys[..i] ==> !(u <= s)
    ensures FirstKey(keys, s) == |keys[i]|
  {
    if i > 0 {
      var rest := keys[1..][..i-1];
      assert keys[..i] == [keys[0]] + rest;
      assert keys[0] in keys[..i] && keys[1..][i-1] == keys[i];
      forall u | u in rest ensures !(u <= s) {
        assert u in keys[..i];
      }
      FirstKeyIs(keys[1..], s, i - 1);
    }
  }

  lemma SafeHeadOrder(keys: seq<string>, s: string, i: nat)
    requires AllKeys(keys) && i < |keys| && s != "" && Separated(OneOf(keys), s)
    ensures SafeHead(Parse(OneOf(keys), s), Elems(keys[..i]), keys[i])
  {
    var pat, k := OneOf(keys), keys[i];
    var ps, n := Parse(pat, s), MatchLen(pat, s);
    assert keys[..i+1] == keys[..i] + [k];
    ParseRenders(pat, s);
    if s[0] == '$' {
      ParseSegment(pat, s);
    }
    if Live(ps, Elems(keys[..i])) && ps[0] != Tok(k) && Captures(ps, Elems(keys[..i]), k) && k <= Segment(ps) {
      SegmentOfRender(ps, k);
      FirstKeyWins(keys, s, i);
      assert false;
    }
  }

  lemma {:induction false} SafeStepOrder(keys: seq<string>, s: string, i: nat)
    requires AllKeys(keys) && i < |keys| && Separated(OneOf(keys), s)
    ensures SafeStep(Parse(OneOf(keys), s), Elems(keys[..i]), keys[i])
  {
    if s != "" {
      var m := Step(OneOf(keys), s);
      SafeHeadOrder(keys, s, i);
      SeparatedDrop(OneOf(keys), s, m);
      SafeStepOrder(keys, s[m..], i);
    }
  }

  lemma {:induction false} KeysFound(keys: seq<string>, s: string)
    ensures forall t :: t in FindAll(OneOf(keys), s) ==> t in keys
  {
    if s != "" {
      KeysFound(keys, s[Step(OneOf(keys), s)..]);
    }
  }

  /**
   * Replacing any keys one by one, also keys that begin others, is the one-pass expansion in which at every `$` the key
   * that comes first in the order wins.
   */
  lemma KeysInOrder(keys: seq<string>, s: string, val: map<string, string>)
    requires AllKeys(keys) && PlainValues(val) && Separated(OneOf(keys), s)
    ensures Chain(s, keys, val) == Expand(OneOf(keys), s, val)
  {
    var pat := OneOf(keys);
    forall i | 0 <= i < |keys| ensures SafeStep(Parse(pat, s), Elems(keys[..i]), keys[i]) {
      SafeStepOrder(keys, s, i);
    }
    ParseRenders(pat, s);
    ChainIsFill(Parse(pat, s), keys, val);
    KeysFound(keys, s);
    ExpandIsFill(pat, s, Elems(keys), val);
  }

  /** The key is the first of the keys that begins it. */
  predicate Whole(keys: seq<string>, k: string) {
    FirstKey(keys, k) == |k|
  }

  /** Every key is the first that begins it exactly when no key begins one that is not before it. */
  lemma WholeIffShorterLast(keys: seq<string>)
    requires AllKeys(keys)
    ensures (forall k :: k in keys ==> Whole(keys, k)) <==> ShorterLast(keys)
  {
    forall i, k | 0 <= i < |keys| && k in keys && k !in keys[..i] && ProperPrefix(keys[i], k)
      ensures !Whole(keys, k)
    {
      FirstKeyWins(keys, k, i);
      assert keys[..i+1] == keys[..i] + [keys[i]];
      assert k[..|k|] == k;
    }
    forall k | k in keys && !Whole(keys, k) ensures !ShorterLast(keys) {
      KeyFound(keys, k, k);
      var i := FirstKeyPlace(keys, k);
      assert ProperPrefix(keys[i], k);
    }
  }

  // ------------------------------------------------ the found texts as keys

  /** Texts that the pattern matches as a whole. */
  predicate AllMatch(pat: Pattern, toks: seq<string>)
    requires pat.Repeat?
  {
    forall i :: 0 <= i < |toks| ==> Matches(pat, toks[i])
  }

  lemma {:induction false} FoundMatch(pat: Pattern, s: string)
    requires pat.Repeat?
    ensures AllMatch(pat, FindAll(pat, s))
  {
    if s != "" {
      FoundMatch(pat, s[Step(pat, s)..]);
      if MatchLen(pat, s) > 0 {
        HeadMatches(pat, s);
      }
    }
  }

  lemma HeadMatches(pat: Pattern, s: string)
    requires pat.Repeat? && MatchLen(pat, s) > 0
    ensures Matches(pat, s[..MatchLen(pat, s)])
  {
    var t := s[..MatchLen(pat, s)];
    assert forall i :: |pat.head| <= i < |t| ==> t[i] == s[|pat.head|..][i-|pat.head|];
  }

  /** Keys that match are found only where the pattern matches, and what could grow into one could grow into a match. */
  lemma KeysArePart(pat: Pattern, s: string, keys: seq<string>)
    requires pat.Repeat? && AllMatch(pat, keys)
    ensures FirstKey(keys, s) > 0 ==> MatchLen(pat, s) > 0
    ensures Extensible(OneOf(keys), s) ==> Extensible(pat, s)
  {
    if FirstKey(keys, s) > 0 {
      assert s[..FirstKey(keys, s)] in keys;
      MatchedText(pat, s, s[..FirstKey(keys, s)]);
    }
    if i :| 0 <= i < |keys| && ProperPrefix(s, keys[i]) {
      PrefixOfMatch(pat, s, keys[i]);
    }
  }

  /** What is separated for the pattern is so for some of its matches. */
  lemma {:induction false} SeparatedForSome(pat: Pattern, s: string, keys: seq<string>)
    requires pat.Repeat? && Separated(pat, s) && AllMatch(pat, keys)
    ensures Separated(OneOf(keys), s) && Separated(Either(OneOf(keys), pat), s)
  {
    if s != "" {
      SeparatedForSome(pat, s[1..], keys);
      if s[0] == '$' {
        KeysArePart(pat, HeadSegment(s), keys);
        KeysArePart(pat, s[|HeadSegment(s)|..], keys);
      }
    }
  }

  // ------------------------------------------------ characters of no placeholder

  /** The character occurs in no placeholder of the pattern. */
  predicate Foreign(pat: Pattern, c: char) {
    match pat
    case OneOf(keys) => Lacks(keys, c)
    case Repeat(head, cl) => c !in head && !cl.Has(c)
    case Either(l, r) => Foreign(l, c) && Foreign(r, c)
  }

  lemma {:induction false} KeyStopsAt(keys: seq<string>, a: string, c: char, b: string)
    requires Lacks(keys, c)
    ensures FirstKey(keys, a + ([c] + b)) == FirstKey(keys, a)
  {
    if keys != [] {
      PrefixStopsAt(keys[0], a, c, b);
      assert forall i :: 0 <= i < |keys| - 1 ==> keys[1..][i] == keys[i+1];
      KeyStopsAt(keys[1..], a, c, b);
    }
  }

  lemma PrefixStopsAt(k: string, a: string, c: char, b: string)
    requires c !in k
    ensures k <= a + ([c] + b) <==> k <= a
  {
    if k <= a {
      PrefixExtends(k, a, [c] + b);
    } else if k <= a + ([c] + b) {
      PrefixOfConcat(k, a, [c] + b);
    }
  }

  lemma {:induction false} SpanStopsAt(cl: Class, a: string, c: char, b: string)
    requires !cl.Has(c)
    ensures Span(cl, a + ([c] + b)) == Span(cl, a)
  {
    if a == "" {
      assert a + ([c] + b) == [c] + b;
    } else {
      assert (a + ([c] + b))[1..] == a[1..] + ([c] + b) && (a + ([c] + b))[0] == a[0];
      SpanStopsAt(cl, a[1..], c, b);
    }
  }

  /** What matches does not go beyond a foreign character. */
  lemma {:induction false} MatchStopsAt(pat: Pattern, a: string, c: char, b: string)
    requires Foreign(pat, c)
    ensures MatchLen(pat, a + ([c] + b)) == MatchLen(pat, a)
  {
    match pat
    case OneOf(keys) => KeyStopsAt(keys, a, c, b);
    case Repeat(head, cl) =>
      PrefixStopsAt(head, a, c, b);
      if head <= a {
        assert (a + ([c] + b))[|head|..] == a[|head|..] + ([c] + b);
        SpanStopsAt(cl, a[|head|..], c, b);
      }
    case Either(l, r) =>
      MatchStopsAt(l, a, c, b);
      MatchStopsAt(r, a, c, b);
  }

  lemma {:induction false} ForeignEnds(pat: Pattern, t: string, c: char)
    requires Foreign(pat, c) && c in t
    ensures !Extensible(pat, t)
  {
    match pat
    case OneOf(keys) =>
      forall i | 0 <= i < |keys| ensures !ProperPrefix(t, keys[i]) {
        NotPrefixOf(t, keys[i], c);
      }
    case Repeat(head, cl) =>
      var i :| 0 <= i < |t| && t[i] == c;
      NotPrefixOf(t, head, c);
      assert head <= t ==> i >= |head|;
    case Either(l, r) =>
      ForeignEnds(l, t, c);
      ForeignEnds(r, t, c);
  }

  lemma NotPrefixOf(t: string, k: string, c: char)
    requires c in t && c !in k
    ensures !(t <= k)
  {
    var i :| 0 <= i < |t| && t[i] == c;
    assert i < |k| ==> k[i] != c;
  }
}
