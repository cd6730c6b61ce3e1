/**
 * Expanding one kind of placeholder after another over the same text.
 *
 * A mapping is rewritten in passes: host names, then ports, then the service name, then environment
 * variables. Each pass scans the text the earlier ones left. Under the separation condition of `Scan`
 * the passes together are one expansion by the combined pattern.
 */
module Stages {
  import opened Text
  import opened Pieces
  import opened Scan

  /** `p` is one of the alternatives of `g`. */
  predicate PartOf(p: Pattern, g: Pattern) {
    p == g || (g.Either? && (PartOf(p, g.left) || PartOf(p, g.right)))
  }

  /** The fixed texts with which the matches of a pattern begin. */
  function Leads(pat: Pattern): seq<string> {
    match pat
    case OneOf(keys) => keys
    case Repeat(head, _) => [head]
    case Either(l, r) => Leads(l) + Leads(r)
  }

  /** The alternatives of a pattern never match at the same place. */
  predicate Unambiguous(pat: Pattern) {
    match pat
    case OneOf(keys) => true
    case Repeat(_, _) => true
    case Either(l, r) =>
      && Unambiguous(l) && Unambiguous(r)
      && forall i, j :: 0 <= i < |Leads(l)| && 0 <= j < |Leads(r)| ==>
                          !(Leads(l)[i] <= Leads(r)[j]) && !(Leads(r)[j] <= Leads(l)[i])
  }

  /** The placeholders of one kind. */
  function Kind(p: Pattern, toks: seq<string>): set<string> {
    set t | t in toks && MatchLen(p, t) > 0
  }

  lemma {:induction false} MatchHasLead(pat: Pattern, s: string) returns (i: nat)
    requires MatchLen(pat, s) > 0
    ensures i < |Leads(pat)| && Leads(pat)[i] <= s
  {
    match pat
    case OneOf(keys) => i := FirstKeyIndex(keys, s);
    case Repeat(head, _) => i := 0;
    case Either(l, r) =>
      if MatchLen(l, s) > 0 {
        i := MatchHasLead(l, s);
      } else {
        var j := MatchHasLead(r, s);
        i := |Leads(l)| + j;
      }
  }

  lemma {:induction false} FirstKeyIndex(keys: seq<string>, s: string) returns (i: nat)
    requires FirstKey(keys, s) > 0
    ensures i < |keys| && keys[i] <= s
  {
    if keys[0] <= s {
      i := 0;
    } else {
      var j := FirstKeyIndex(keys[1..], s);
      i := j + 1;
    }
  }

  lemma OneSideOnly(l: Pattern, r: Pattern, s: string)
    requires Unambiguous(Either(l, r)) && MatchLen(r, s) > 0
    ensures MatchLen(l, s) == 0
  {
    if MatchLen(l, s) > 0 {
      var i := MatchHasLead(l, s);
      var j := MatchHasLead(r, s);
      PrefixesCompare(Leads(l)[i], Leads(r)[j], s);
    }
  }

  /** Where a part matches, the whole pattern matches the same text. */
  lemma {:induction false} PartMatch(p: Pattern, g: Pattern, s: string)
    requires PartOf(p, g) && Unambiguous(g) && MatchLen(p, s) > 0
    ensures MatchLen(g, s) == MatchLen(p, s)
  {
    if p != g {
      if PartOf(p, g.left) {
        PartMatch(p, g.left, s);
      } else {
        PartMatch(p, g.right, s);
        OneSideOnly(g.left, g.right, s);
      }
    }
  }

  /** A match is recognised from its own text. */
  lemma {:induction false} MatchOfMatch(pat: Pattern, s: string)
    requires MatchLen(pat, s) > 0
    ensures MatchLen(pat, s[..MatchLen(pat, s)]) > 0
  {
    var n := MatchLen(pat, s);
    match pat
    case OneOf(keys) => FirstKeyTake(keys, s);
    case Repeat(head, cl) =>
      assert head == s[..n][..|head|];
      assert s[..n][|head|..][0] == s[|head|..][0];
    case Either(l, r) =>
      if MatchLen(l, s) > 0 {
        MatchOfMatch(l, s);
      } else {
        MatchOfMatch(r, s);
      }
  }

  lemma {:induction false} FirstKeyTake(keys: seq<string>, s: string)
    requires FirstKey(keys, s) > 0
    ensures FirstKey(keys, s[..FirstKey(keys, s)]) > 0
  {
    var n := FirstKey(keys, s);
    if keys[0] <= s {
      assert keys[0] == s[..n];
    } else {
      FirstKeyTake(keys[1..], s);
      PrefixOfTake(keys[0], s, n);
    }
  }

  lemma PrefixOfTake(k: string, s: string, n: nat)
    requires n <= |s|
    ensures k <= s[..n] ==> k <= s
  {
    if k <= s[..n] {
      assert s[..n][..|k|] == s[..|k|];
    }
  }

  lemma {:induction false} MatchGrows(pat: Pattern, t: string, x: string)
    requires ValidPattern(pat) && MatchLen(pat, t) > 0
    ensures MatchLen(pat, t + x) > 0
  {
    match pat
    case OneOf(keys) => FirstKeyGrows(keys, t, x);
    case Repeat(head, cl) =>
      PrefixExtends(head, t, x);
      assert (t + x)[|head|..][0] == t[|head|..][0];
    case Either(l, r) =>
      if MatchLen(l, t) > 0 {
        MatchGrows(l, t, x);
      } else {
        MatchGrows(r, t, x);
      }
  }

  lemma {:induction false} FirstKeyGrows(keys: seq<string>, t: string, x: string)
    requires AllKeys(keys) && FirstKey(keys, t) > 0
    ensures FirstKey(keys, t + x) > 0
  {
    if keys[0] <= t {
      PrefixExtends(keys[0], t, x);
    } else if !(keys[0] <= t + x) {
      assert forall i :: 0 <= i < |keys| - 1 ==> keys[1..][i] == keys[i+1];
      FirstKeyGrows(keys[1..], t, x);
    }
  }

  /** The kind of a placeholder found in a text can be told from the placeholder alone. */
  lemma KindOfMatch(p: Pattern, g: Pattern, s: string)
    requires ValidPattern(p) && PartOf(p, g) && Unambiguous(g) && MatchLen(g, s) > 0
    ensures MatchLen(p, s[..MatchLen(g, s)]) > 0 <==> MatchLen(p, s) > 0
  {
    var t := s[..MatchLen(g, s)];
    TakeDrop(s, MatchLen(g, s));
    if MatchLen(p, s) > 0 {
      PartMatch(p, g, s);
      MatchOfMatch(p, s);
    } else if MatchLen(p, t) > 0 {
      MatchGrows(p, t, s[MatchLen(g, s)..]);
    }
  }

  lemma {:induction false} ExpandPlain(pat: Pattern, p: string, t: string, val: map<string, string>)
    requires ValidPattern(pat) && NoDollar(p)
    ensures Expand(pat, p + t, val) == p + Expand(pat, t, val)
  {
    if p == "" {
      assert p + t == t;
    } else {
      ExpandPlain(pat, p[1..], t, val);
      ExpandFirst(pat, p, t, val);
      ConcatHead(p, Expand(pat, t, val));
    }
  }

  lemma ExpandFirst(pat: Pattern, p: string, t: string, val: map<string, string>)
    requires ValidPattern(pat) && p != "" && p[0] != '$'
    ensures Expand(pat, p + t, val) == p[..1] + Expand(pat, p[1..] + t, val)
  {
    var s := p + t;
    NoMatchWithoutDollar(pat, s);
    assert s[1..] == p[1..] + t && [s[0]] == p[..1];
  }

  /** One pass over a text replaces exactly the placeholders of its kind. */
  lemma {:induction false} PassFills(p: Pattern, g: Pattern, s: string, done: set<string>, val: map<string, string>)
    requires ValidPattern(g) && ValidPattern(p) && PartOf(p, g) && Unambiguous(g)
    requires forall t :: t in FindAll(g, s) ==> (t in done <==> MatchLen(p, t) > 0)
    ensures Expand(p, s, val) == Fill(Parse(g, s), done, val)
  {
    if s != "" {
      var m := Step(g, s);
      var rest := s[m..];
      forall t | t in FindAll(g, rest) ensures t in done <==> MatchLen(p, t) > 0 {
        assert t in FindAll(g, s);
      }
      PassFills(p, g, rest, done, val);
      if MatchLen(p, s) > 0 {
        PartMatch(p, g, s);
      }
      if MatchLen(g, s) > 0 {
        assert s[..m] in FindAll(g, s);
        KindOfMatch(p, g, s);
        if MatchLen(p, s) == 0 {
          MatchIsKey(g, s);
          SkipMatch(p, s, m, val);
        }
      }
    }
  }

  /** A placeholder of another kind is copied. */
  lemma SkipMatch(p: Pattern, s: string, m: nat, val: map<string, string>)
    requires ValidPattern(p) && 1 <= m <= |s| && IsKey(s[..m]) && MatchLen(p, s) == 0
    ensures Expand(p, s, val) == s[..m] + Expand(p, s[m..], val)
  {
    KeySplit(s, m);
    ExpandPlain(p, s[1..m], s[m..], val);
    ConcatAssoc([s[0]], s[1..m], Expand(p, s[m..], val));
  }

  lemma KeySplit(s: string, m: nat)
    requires 1 <= m <= |s| && IsKey(s[..m])
    ensures NoDollar(s[1..m]) && [s[0]] + s[1..m] == s[..m] && s[1..] == s[1..m] + s[m..]
  {
    assert s[..m][1..] == s[1..m];
  }

  function OfKind(p: Pattern, toks: seq<string>): seq<string> {
    if toks == [] then []
    else (if MatchLen(p, toks[0]) > 0 then [toks[0]] else []) + OfKind(p, toks[1..])
  }

  lemma {:induction false} FindAllPlain(pat: Pattern, p: string, t: string)
    requires ValidPattern(pat) && NoDollar(p)
    ensures FindAll(pat, p + t) == FindAll(pat, t)
  {
    if p == "" {
      assert p + t == t;
    } else {
      ConcatHead(p, t);
      NoMatchWithoutDollar(pat, p + t);
      assert (p + t)[1..] == p[1..] + t;
      FindAllPlain(pat, p[1..], t);
    }
  }

  /** A pass finds the placeholders of its kind, in order. */
  lemma {:induction false} PassFinds(p: Pattern, g: Pattern, s: string)
    requires ValidPattern(g) && ValidPattern(p) && PartOf(p, g) && Unambiguous(g)
    ensures FindAll(p, s) == OfKind(p, FindAll(g, s))
  {
    if s != "" {
      var m := Step(g, s);
      PassFinds(p, g, s[m..]);
      if MatchLen(p, s) > 0 {
        PartMatch(p, g, s);
      }
      if MatchLen(g, s) > 0 {
        KindOfMatch(p, g, s);
        assert FindAll(g, s) == [s[..m]] + FindAll(g, s[m..]);
        if MatchLen(p, s) == 0 {
          MatchIsKey(g, s);
          KeySplit(s, m);
          FindAllPlain(p, s[1..m], s[m..]);
        }
      }
    }
  }

  lemma {:induction false} ExtensibleShrinks(pat: Pattern, a: string, b: string)
    requires a <= b && Extensible(pat, b)
    ensures Extensible(pat, a)
  {
    match pat
    case OneOf(keys) =>
      var i :| 0 <= i < |keys| && ProperPrefix(b, keys[i]);
      assert a == b[..|a|] == keys[i][..|a|];
      assert ProperPrefix(a, keys[i]);
    case Repeat(head, cl) =>
      if b <= head {
        assert a == b[..|a|] == head[..|a|];
      } else {
        PrefixesCompare(a, head, b);
      }
    case Either(l, r) =>
      if Extensible(l, b) {
        ExtensibleShrinks(l, a, b);
      } else {
        ExtensibleShrinks(r, a, b);
      }
  }

  lemma {:induction false} ExtensiblePart(p: Pattern, g: Pattern, t: string)
    requires PartOf(p, g) && Extensible(p, t)
    ensures Extensible(g, t)
  {
    if p != g {
      if PartOf(p, g.left) {
        ExtensiblePart(p, g.left, t);
      } else {
        ExtensiblePart(p, g.right, t);
      }
    }
  }

  lemma {:induction false} PartSeparated(p: Pattern, g: Pattern, s: string)
    requires PartOf(p, g) && Unambiguous(g) && Separated(g, s)
    ensures Separated(p, s)
  {
    if s != "" {
      PartSeparated(p, g, s[1..]);
      if s[0] == '$' {
        var seg := HeadSegment(s);
        if MatchLen(p, s[|seg|..]) > 0 && Extensible(p, seg) {
          PartMatch(p, g, s[|seg|..]);
          ExtensiblePart(p, g, seg);
        }
      }
    }
  }

  lemma {:induction false} SeparatedPlain(pat: Pattern, p: string, t: string)
    requires NoDollar(p) && Separated(pat, t)
    ensures Separated(pat, p + t)
  {
    if p == "" {
      assert p + t == t;
    } else {
      ConcatHead(p, t);
      assert (p + t)[1..] == p[1..] + t;
      SeparatedPlain(pat, p[1..], t);
    }
  }

  lemma {:induction false} NothingMatchesEmpty(pat: Pattern)
    requires ValidPattern(pat)
    ensures MatchLen(pat, "") == 0
  {
    match pat
    case OneOf(keys) =>
    case Repeat(_, _) =>
    case Either(l, r) =>
      NothingMatchesEmpty(l);
      NothingMatchesEmpty(r);
  }

  lemma SegmentOfConcat(seg: string, x: string)
    requires IsKey(seg)
    ensures seg <= HeadSegment(seg + x)
    ensures x == "" || x[0] == '$' ==> HeadSegment(seg + x) == seg
  {
    var s := seg + x;
    assert s[..|seg|] == seg;
    SegmentSplit(s, |seg|);
    assert s[|seg|..] == x;
  }

  lemma SeparatedFilledHead(g: Pattern, s: string, done: set<string>, val: map<string, string>)
    requires ValidPattern(g) && PlainValues(val) && Separated(g, s)
    requires s != "" && Live(Parse(g, s), done)
    ensures var w := Fill(Parse(g, s), done, val);
            w != "" && w[0] == '$' && !(MatchLen(g, w[|HeadSegment(w)|..]) > 0 && Extensible(g, HeadSegment(w)))
  {
    var seg := HeadSegmentFilled(g, s, done, val);
    var w, s2 := Fill(Parse(g, s), done, val), s[|seg|..];
    var x := Fill(Parse(g, s2), done, val);
    SegmentOfConcat(seg, x);
    assert w[|seg|..] == x;
    if s2 == "" {
      NothingMatchesEmpty(g);
      assert w[|HeadSegment(w)|..] == "";
    } else if Live(Parse(g, s2), done) {
      SeparatedDrop(g, s, |seg|);
      ParseRenders(g, s2);
      FillLive(Parse(g, s2), done, val);
      SameMatch(g, s2, done, val);
    } else if Extensible(g, HeadSegment(w)) {
      assert s2[0] == '$';
      ExtensibleShrinks(g, seg, HeadSegment(w));
    }
  }

  lemma HeadSegmentFilled(g: Pattern, s: string, done: set<string>, val: map<string, string>) returns (seg: string)
    requires ValidPattern(g) && s != "" && Live(Parse(g, s), done)
    ensures s[0] == '$' && seg == HeadSegment(s)
    ensures Fill(Parse(g, s), done, val) == seg + Fill(Parse(g, s[|seg|..]), done, val)
  {
    ParseRenders(g, s);
    if MatchLen(g, s) > 0 {
      MatchIsKey(g, s);
    }
    seg := HeadSegment(s);
    ParseSegment(g, s);
    FillLive(Parse(g, s), done, val);
  }

  lemma SeparatedCons(g: Pattern, h: string, t: string)
    requires IsKey(h) && Separated(g, t)
    requires !(MatchLen(g, (h + t)[|HeadSegment(h + t)|..]) > 0 && Extensible(g, HeadSegment(h + t)))
    ensures Separated(g, h + t)
  {
    SeparatedPlain(g, h[1..], t);
    SeparatedHead(g, h + t, h[1..] + t);
  }

  lemma SeparatedHead(g: Pattern, s: string, rest: string)
    requires s != "" && s[0] == '$' && s[1..] == rest && Separated(g, rest)
    requires !(MatchLen(g, s[|HeadSegment(s)|..]) > 0 && Extensible(g, HeadSegment(s)))
    ensures Separated(g, s)
  {
  }

  /** Replacing some placeholders leaves a separated text. */
  lemma {:induction false} SeparatedFilled(g: Pattern, s: string, done: set<string>, val: map<string, string>)
    requires ValidPattern(g) && PlainValues(val) && Separated(g, s)
    ensures Separated(g, Fill(Parse(g, s), done, val))
  {
    if s != "" {
      var ps, m := Parse(g, s), Step(g, s);
      ParseRenders(g, s);
      SeparatedDrop(g, s, m);
      SeparatedFilled(g, s[m..], done, val);
      var h, rest := Show(ps[0], done, val), Fill(ps[1..], done, val);
      if Live(ps, done) {
        SeparatedFilledHead(g, s, done, val);
        assert ps[0].Tok? ==> IsKey(ps[0].key);
        SeparatedCons(g, h, rest);
      } else {
        SeparatedPlain(g, h, rest);
      }
    }
  }

  lemma {:induction false} FillChars(s: string, ps: seq<Piece>, done: set<string>, val: map<string, string>)
    ensures Fill(Chars(s) + ps, done, val) == s + Fill(ps, done, val)
  {
    if s == "" {
      assert Chars(s) + ps == ps;
    } else {
      CharsCons(s, ps);
      FillCons(Ch(s[0]), Chars(s[1..]) + ps, done, val);
      FillChars(s[1..], ps, done, val);
      ConcatHead(s, Fill(ps, done, val));
    }
  }

  lemma {:induction false} FillFlat(ps: seq<Piece>, done: set<string>, more: set<string>, val: map<string, string>)
    ensures Fill(Flat(ps, done, val), more, val) == Fill(ps, done + more, val)
  {
    if ps != [] {
      FillFlat(ps[1..], done, more, val);
      var rest := Flat(ps[1..], done, val);
      if ps[0].Tok? && ps[0].key in done {
        FillChars(Lookup(val, ps[0].key), rest, more, val);
      } else {
        FillCons(ps[0], rest, more, val);
      }
    }
  }

  lemma {:induction false} FillAgrees(ps: seq<Piece>, d: set<string>, e: set<string>, val: map<string, string>)
    requires forall t :: t in Tokens(ps) ==> (t in d <==> t in e)
    ensures Fill(ps, d, val) == Fill(ps, e, val)
  {
    if ps != [] {
      assert forall t :: t in Tokens(ps[1..]) ==> t in Tokens(ps);
      assert ps[0].Tok? ==> ps[0].key in Tokens(ps);
      FillAgrees(ps[1..], d, e, val);
    }
  }

  /**
   * One more pass over a partly expanded text expands one more kind of placeholder; it finds exactly the
   * placeholders of its kind that the template had, and the text it leaves is separated again.
   */
  lemma NextPass(p: Pattern, g: Pattern, s: string, done: set<string>, val: map<string, string>)
    requires ValidPattern(g) && ValidPattern(p) && PartOf(p, g) && Unambiguous(g)
    requires PlainValues(val) && Separated(g, s)
    ensures var w := Fill(Parse(g, s), done, val);
            && Expand(p, w, val) == Fill(Parse(g, s), done + Kind(p, FindAll(g, s)), val)
            && FindAll(p, w) == OfKind(p, Without(FindAll(g, s), done))
            && Separated(p, w)
  {
    var ps, k := Parse(g, s), Kind(p, FindAll(g, s));
    var w := Fill(ps, done, val);
    SeparatedFilled(g, s, done, val);
    PartSeparated(p, g, w);
    PassFinds(p, g, w);
    FindAllRemaining(g, s, done, val);
    var left := Kind(p, FindAll(g, w));
    PassFills(p, g, w, left, val);
    ParseFilled(g, s, done, val);
    FillFlat(ps, done, left, val);
    FindAllIsTokens(g, s);
    WithoutElems(FindAll(g, s), done);
    FillAgrees(ps, done + left, done + k, val);
  }

  /** Two placeholders that differ in the character after the `$`, or the one after that. */
  predicate Differ(a: string, b: string) {
    |a| > 2 && |b| > 2 && (a[1] != b[1] || a[2] != b[2])
  }

  lemma EitherIsClear(l: Pattern, r: Pattern)
    requires Unambiguous(l) && Unambiguous(r)
    requires forall a, b :: a in Leads(l) && b in Leads(r) ==> Differ(a, b)
    ensures Unambiguous(Either(l, r))
  {
    forall i, j | 0 <= i < |Leads(l)| && 0 <= j < |Leads(r)|
      ensures !(Leads(l)[i] <= Leads(r)[j]) && !(Leads(r)[j] <= Leads(l)[i])
    {
      assert Differ(Leads(l)[i], Leads(r)[j]);
    }
  }

  lemma {:induction false} TokenMatches(g: Pattern, s: string, t: string)
    requires t in FindAll(g, s)
    ensures MatchLen(g, t) > 0
  {
    var n := MatchLen(g, s);
    if n > 0 && t == s[..n] {
      MatchOfMatch(g, s);
    } else {
      TokenMatches(g, s[Step(g, s)..], t);
    }
  }

  lemma {:induction false} OfKindElems(p: Pattern, toks: seq<string>)
    ensures forall t :: t in OfKind(p, toks) <==> t in toks && MatchLen(p, t) > 0
  {
    if toks != [] {
      OfKindElems(p, toks[1..]);
    }
  }

  lemma {:induction false} OfKindWithout(p: Pattern, toks: seq<string>, done: set<string>)
    requires forall t :: t in toks && t in done ==> MatchLen(p, t) == 0
    ensures OfKind(p, Without(toks, done)) == OfKind(p, toks)
  {
    if toks != [] {
      OfKindWithout(p, toks[1..], done);
      assert toks[0] !in done ==> Without(toks, done)[1..] == Without(toks[1..], done);
    }
  }

  /** Where the `i`-th placeholder of a kind stands, and which of the kind stand before it. */
  lemma {:induction false} OfKindAt(p: Pattern, toks: seq<string>, i: nat) returns (k: nat)
    requires i < |OfKind(p, toks)|
    ensures k < |toks| && toks[k] == OfKind(p, toks)[i] && OfKind(p, toks)[..i] == OfKind(p, toks[..k])
  {
    var here := MatchLen(p, toks[0]) > 0;
    if here && i == 0 {
      k := 0;
    } else {
      var rest := OfKind(p, toks[1..]);
      var n := if here then i - 1 else i;
      var later := OfKindAt(p, toks[1..], n);
      k := later + 1;
      assert toks[..k][1..] == toks[1..][..later];
      assert here ==> ([toks[0]] + rest)[..i] == [toks[0]] + rest[..n];
    }
  }

  lemma OfKindShorterLast(p: Pattern, toks: seq<string>)
    requires ShorterLast(toks)
    ensures ShorterLast(OfKind(p, toks))
  {
    var kind := OfKind(p, toks);
    OfKindElems(p, toks);
    forall i, t | 0 <= i < |kind| && t in kind && t !in kind[..i] ensures !ProperPrefix(kind[i], t) {
      var k := OfKindAt(p, toks, i);
      OfKindElems(p, toks[..k]);
    }
  }

  /** Where a placeholder of a kind stands among its kind. */
  lemma {:induction false} OfKindIndex(p: Pattern, toks: seq<string>, i: nat) returns (k: nat)
    requires i < |toks| && MatchLen(p, toks[i]) > 0
    ensures k < |OfKind(p, toks)| && OfKind(p, toks)[k] == toks[i] && OfKind(p, toks)[..k] == OfKind(p, toks[..i])
  {
    k := |OfKind(p, toks[..i])|;
    OfKindConcat(p, toks[..i], toks[i..]);
    assert toks[..i] + toks[i..] == toks;
    assert toks[i..][0] == toks[i];
  }

  lemma {:induction false} OfKindConcat(p: Pattern, a: seq<string>, b: seq<string>)
    ensures OfKind(p, a + b) == OfKind(p, a) + OfKind(p, b)
  {
    if a == [] {
      assert a + b == b;
    } else {
      assert (a + b)[1..] == a[1..] + b && (a + b)[0] == a[0];
      OfKindConcat(p, a[1..], b);
      KindAssoc(if MatchLen(p, a[0]) > 0 then [a[0]] else [], OfKind(p, a[1..]), OfKind(p, b));
    }
  }

  lemma KindAssoc(a: seq<string>, b: seq<string>, c: seq<string>)
    ensures (a + b) + c == a + (b + c)
  {
  }

  // ---------------------------------------------------------------- one match of a repeat pattern

  lemma {:induction false} SpanOf(cl: Class, run: string, after: string)
    requires (forall i :: 0 <= i < |run| ==> cl.Has(run[i])) && (after == "" || !cl.Has(after[0]))
    ensures Span(cl, run + after) == |run|
  {
    if run == "" {
      assert run + after == after;
    } else {
      assert (run + after)[1..] == run[1..] + after;
      SpanOf(cl, run[1..], after);
    }
  }

  /** A head with a run of the class behind it is matched as far as the run goes. */
  lemma RepeatMatches(pat: Pattern, run: string, after: string)
    requires pat.Repeat? && run != "" && (forall i :: 0 <= i < |run| ==> pat.class_.Has(run[i]))
    requires after == "" || !pat.class_.Has(after[0])
    ensures MatchLen(pat, pat.head + run + after) == |pat.head + run|
    ensures (pat.head + run + after)[..|pat.head + run|] == pat.head + run
    ensures (pat.head + run + after)[|pat.head + run|..] == after
  {
    assert (pat.head + run + after)[|pat.head|..] == run + after;
    SpanOf(pat.class_, run, after);
  }

  lemma RepeatToken(pat: Pattern, before: string, run: string, after: string)
    requires ValidPattern(pat) && pat.Repeat? && NoDollar(before)
    requires run != "" && (forall i :: 0 <= i < |run| ==> pat.class_.Has(run[i]))
    requires after == "" || !pat.class_.Has(after[0])
    ensures FindAll(pat, before + (pat.head + run + after)) == [pat.head + run] + FindAll(pat, after)
  {
    RepeatMatches(pat, run, after);
    FindAllPlain(pat, before, pat.head + run + after);
  }
}
