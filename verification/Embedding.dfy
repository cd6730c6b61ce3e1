/** Texts that hold placeholders of their own and are inserted for other placeholders. */
module Embedding {
  import opened Text
  import opened Pieces
  import opened Scan
  import opened Stages

  /** The last `$` of the text cannot grow into a placeholder with what follows the text. */
  predicate Sealed(g: Pattern, u: string) {
    u == "" ||
    ((u[0] == '$' && HeadSegment(u) == u ==> !Extensible(g, u)) && Sealed(g, u[1..]))
  }

  /** The text can stand anywhere: its placeholders stay what they are. */
  predicate Embeddable(g: Pattern, u: string) {
    Separated(g, u) && Sealed(g, u)
  }

  lemma {:induction false} SealedDrop(g: Pattern, u: string, n: nat)
    requires n <= |u| && Sealed(g, u)
    ensures Sealed(g, u[n..])
  {
    if n > 0 {
      SealedDrop(g, u[1..], n - 1);
      assert u[1..][n-1..] == u[n..];
    }
  }

  /** A text from a `$` on, cut before the next one. */
  lemma SegmentCut(s: string) returns (seg: string, rest: string)
    requires s != "" && s[0] == '$'
    ensures seg == HeadSegment(s) && s == seg + rest && rest == s[|seg|..] && IsKey(seg) &&
            (rest == "" || rest[0] == '$')
  {
    seg := HeadSegment(s);
    rest := s[|seg|..];
    TakeDrop(s, |seg|);
    assert s[..|seg|] == seg;
  }

  lemma FindAllStep(g: Pattern, s: string)
    requires s != ""
    ensures FindAll(g, s) == (if MatchLen(g, s) > 0 then [s[..MatchLen(g, s)]] else []) + FindAll(g, s[Step(g, s)..])
  {
  }

  /** The placeholder of a segment, if it has one. */
  function HeadToken(g: Pattern, seg: string): seq<string> {
    if MatchLen(g, seg) > 0 then [seg[..MatchLen(g, seg)]] else []
  }

  /** The placeholders of a segment and of what follows it. */
  lemma FindAllSegment(g: Pattern, seg: string, x: string)
    requires ValidPattern(g) && IsKey(seg) && (x == "" || x[0] == '$' || !Extensible(g, seg))
    ensures FindAll(g, seg + x) == HeadToken(g, seg) + FindAll(g, x)
  {
    MatchIsLocal(g, seg, x);
    FindAllStep(g, seg + x);
    var m := if MatchLen(g, seg) > 0 then MatchLen(g, seg) else 1;
    CutKey(seg, x, m);
    FindAllPlain(g, seg[m..], x);
  }

  lemma CutKey(a: string, x: string, m: nat)
    requires 1 <= m <= |a| && IsKey(a)
    ensures (a + x)[..m] == a[..m] && (a + x)[m..] == a[m..] + x && NoDollar(a[m..])
  {
    KeyChars(a);
  }

  lemma SeparatedSegment(g: Pattern, seg: string, x: string)
    requires ValidPattern(g) && IsKey(seg) && Separated(g, x)
    requires !Extensible(g, seg) || ((x == "" || x[0] == '$') && MatchLen(g, x) == 0)
    ensures Separated(g, seg + x)
  {
    SegmentOfConcat(seg, x);
    if Extensible(g, seg) {
      assert (seg + x)[|seg|..] == x;
    } else if Extensible(g, HeadSegment(seg + x)) {
      ExtensibleShrinks(g, seg, HeadSegment(seg + x));
    }
    SeparatedCons(g, seg, x);
  }

  lemma SegmentBefore(g: Pattern, s: string)
    requires s != "" && s[0] == '$' && Separated(g, s)
    ensures MatchLen(g, s[|HeadSegment(s)|..]) > 0 ==> !Extensible(g, HeadSegment(s))
  {
  }

  lemma SealedEnd(g: Pattern, u: string)
    requires u != "" && u[0] == '$' && Sealed(g, u)
    ensures u[|HeadSegment(u)|..] == "" ==> !Extensible(g, HeadSegment(u))
  {
    var seg := HeadSegment(u);
    if u[|seg|..] == "" {
      assert seg + u[|seg|..] == u && seg + "" == seg;
    }
  }

  /** What matches at the head of a sealed text does not depend on what follows it. */
  lemma MatchConcat(g: Pattern, v: string, x: string)
    requires ValidPattern(g) && v != "" && v[0] == '$' && Sealed(g, v)
    ensures MatchLen(g, v + x) == MatchLen(g, v)
  {
    var seg, rest := SegmentCut(v);
    ConcatAssoc(seg, rest, x);
    if rest == "" {
      assert v == seg;
    } else {
      assert (rest + x)[0] == '$';
    }
    MatchIsLocal(g, seg, rest + x);
    MatchIsLocal(g, seg, rest);
  }

  /** The second text stays separated behind the first, and each keeps its placeholders. */
  predicate Joins(g: Pattern, u: string, x: string) {
    Separated(g, u + x) && FindAll(g, u + x) == FindAll(g, u) + FindAll(g, x)
  }

  /** Behind an embeddable text, every text stays separated and keeps its placeholders. */
  lemma {:induction false} EmbedConcat(g: Pattern, u: string, x: string)
    requires ValidPattern(g) && Embeddable(g, u) && Separated(g, x)
    ensures Joins(g, u, x)
    decreases |u|
  {
    if u == "" {
      EmbedNothing(g, x);
    } else if u[0] != '$' {
      SealedDrop(g, u, 1);
      SeparatedDrop(g, u, 1);
      EmbedConcat(g, u[1..], x);
      EmbedPlain(g, u, x);
    } else {
      var seg, rest := SegmentCut(u);
      SeparatedDrop(g, u, |seg|);
      SealedDrop(g, u, |seg|);
      EmbedConcat(g, rest, x);
      SegmentBefore(g, u);
      SealedEnd(g, u);
      EmbedSegment(g, seg, rest, x);
    }
  }

  lemma EmbedNothing(g: Pattern, x: string)
    requires Separated(g, x)
    ensures Joins(g, "", x)
  {
    EmptyFirst(x);
    var none := FindAll(g, "");
    assert none == [];
    NoTokensFirst(none, FindAll(g, x));
  }

  lemma EmptyFirst(x: string)
    ensures "" + x == x
  {
  }

  lemma NoTokensFirst(none: seq<string>, toks: seq<string>)
    requires none == []
    ensures none + toks == toks
  {
  }

  lemma EmbedPlain(g: Pattern, u: string, x: string)
    requires ValidPattern(g) && u != "" && u[0] != '$'
    requires Joins(g, u[1..], x)
    ensures Joins(g, u, x)
  {
    ConcatHead(u, x);
    PlainHead(g, u, u[1..] + x);
    TakeDrop(u, 1);
    PlainHead(g, u, u[1..]);
  }

  lemma EmbedSegment(g: Pattern, seg: string, rest: string, x: string)
    requires ValidPattern(g) && IsKey(seg) && (rest == "" || rest[0] == '$') && Sealed(g, rest)
    requires rest == "" || MatchLen(g, rest) > 0 ==> !Extensible(g, seg)
    requires Joins(g, rest, x)
    ensures Joins(g, seg + rest, x)
  {
    ConcatAssoc(seg, rest, x);
    if rest != "" {
      MatchConcat(g, rest, x);
      assert (rest + x)[0] == '$';
    }
    SeparatedSegment(g, seg, rest + x);
    FindAllSegment(g, seg, rest + x);
    FindAllSegment(g, seg, rest);
    TokensAssoc(HeadToken(g, seg), FindAll(g, rest), FindAll(g, x));
  }

  lemma TokensAssoc(a: seq<string>, b: seq<string>, c: seq<string>)
    ensures (a + b) + c == a + (b + c)
  {
  }

  lemma PlainHead(g: Pattern, u: string, x: string)
    requires ValidPattern(g) && u != "" && u[0] != '$'
    ensures FindAll(g, u[..1] + x) == FindAll(g, x) && (Separated(g, x) ==> Separated(g, u[..1] + x))
  {
    FindAllPlain(g, u[..1], x);
    if Separated(g, x) {
      SeparatedPlain(g, u[..1], x);
    }
  }

  // ---------------------------------------------------------------- inserting embeddable texts

  /** The placeholders of a text after the insertion: those of the inserted texts in place of the inserts. */
  function EmbeddedTokens(i: Pattern, g: Pattern, s: string, val: map<string, string>): seq<string> {
    if s == "" then []
    else
      var n, m := MatchLen(i, s), MatchLen(g, s);
      if n > 0 then FindAll(g, Lookup(val, s[..n])) + EmbeddedTokens(i, g, s[n..], val)
      else if m > 0 then [s[..m]] + EmbeddedTokens(i, g, s[m..], val)
      else EmbeddedTokens(i, g, s[1..], val)
  }

  /**
   * A text can stand where it is inserted: what follows is a character of no placeholder, or nothing can extend the
   * text.
   */
  predicate CanStand(g: Pattern, u: string, next: string) {
    Separated(g, u) && (Sealed(g, u) || (next != "" && Foreign(g, next[0])))
  }

  /** All texts can stand where they are inserted. */
  predicate InsertsFit(i: Pattern, g: Pattern, s: string, val: map<string, string>) {
    s == "" ||
    var n := MatchLen(i, s);
    if n > 0 then CanStand(g, Lookup(val, s[..n]), s[n..]) && InsertsFit(i, g, s[n..], val)
        else InsertsFit(i, g, s[1..], val)
  }

  lemma {:induction false} InsertsFitDrop(i: Pattern, g: Pattern, seg: string, x: string, val: map<string, string>)
    requires ValidPattern(i) && IsKey(seg) && MatchLen(i, seg + x) == 0 && InsertsFit(i, g, seg + x, val)
    ensures InsertsFit(i, g, x, val)
  {
    assert (seg + x)[1..] == seg[1..] + x;
    InsertsFitPlain(i, g, seg[1..], x, val);
  }

  lemma {:induction false} InsertsFitPlain(i: Pattern, g: Pattern, p: string, x: string, val: map<string, string>)
    requires ValidPattern(i) && NoDollar(p) && InsertsFit(i, g, p + x, val)
    ensures InsertsFit(i, g, x, val)
  {
    if p == "" {
      assert p + x == x;
    } else {
      assert (p + x)[0] == p[0] && (p + x)[1..] == p[1..] + x;
      NoMatchWithoutDollar(i, p + x);
      InsertsFitPlain(i, g, p[1..], x, val);
    }
  }

  // ---------------------------------------------------------------- texts before a foreign character

  /** A foreign character closes a text. */
  lemma {:induction false} ForeignSeals(g: Pattern, u: string, c: char)
    requires Foreign(g, c)
    ensures Sealed(g, u + [c])
  {
    var s := u + [c];
    if u != "" {
      ForeignSeals(g, u[1..], c);
      assert s[1..] == u[1..] + [c];
    }
    ForeignEnds(g, s, c);
  }

  lemma {:induction false} ForeignFinds(g: Pattern, u: string, c: char)
    requires ValidPattern(g) && Foreign(g, c) && c != '$'
    ensures FindAll(g, u + [c]) == FindAll(g, u)
    decreases |u|
  {
    if u == "" {
      assert u + [c] == [c] && [c][1..] == "";
      NoMatchWithoutDollar(g, [c]);
    } else {
      assert [c] + "" == [c];
      MatchStopsAt(g, u, c, "");
      var m := Step(g, u);
      ForeignFinds(g, u[m..], c);
      CutConcat(u, [c], m);
      FindAllStep(g, u);
      FindAllStep(g, u + [c]);
    }
  }

  lemma {:induction false} ForeignSeparates(g: Pattern, u: string, c: char)
    requires ValidPattern(g) && Foreign(g, c) && c != '$' && Separated(g, u)
    ensures Separated(g, u + [c])
    decreases |u|
  {
    if u == "" {
      SeparatedPlain(g, [c], "");
      assert u + [c] == [c] && [c] + "" == [c];
    } else if u[0] != '$' {
      ForeignSeparates(g, u[1..], c);
      SeparatedPlain(g, u[..1], u[1..] + [c]);
      assert u + [c] == u[..1] + (u[1..] + [c]);
    } else {
      var seg, rest := SegmentCut(u);
      SeparatedDrop(g, u, |seg|);
      ForeignSeparates(g, rest, c);
      SegmentBefore(g, u);
      ForeignSegment(g, seg, rest, c);
      ConcatAssoc(seg, rest, [c]);
    }
  }

  lemma ForeignSegment(g: Pattern, seg: string, rest: string, c: char)
    requires ValidPattern(g) && IsKey(seg) && (rest == "" || rest[0] == '$') && Foreign(g, c) && c != '$'
    requires MatchLen(g, rest) > 0 ==> !Extensible(g, seg)
    requires Separated(g, rest + [c])
    ensures Separated(g, seg + (rest + [c]))
  {
    if rest == "" {
      assert rest + [c] == [c];
      KeyThenChar(seg, c);
      ForeignEnds(g, seg + [c], c);
      NothingMatchesEmpty(g);
      SeparatedSegment(g, seg + [c], "");
      assert (seg + [c]) + "" == seg + [c];
    } else {
      assert [c] + "" == [c];
      MatchStopsAt(g, rest, c, "");
      SeparatedSegment(g, seg, rest + [c]);
    }
  }

  lemma KeyThenChar(k: string, c: char)
    requires IsKey(k) && c != '$'
    ensures IsKey(k + [c])
  {
    assert (k + [c])[1..] == k[1..] + [c];
  }

  /** Behind a text before a foreign character every text stays separated and keeps its placeholders. */
  lemma ForeignConcat(g: Pattern, u: string, x: string)
    requires ValidPattern(g) && Separated(g, u) && x != "" && Foreign(g, x[0]) && x[0] != '$' && Separated(g, x)
    ensures Separated(g, u + x) && FindAll(g, u + x) == FindAll(g, u) + FindAll(g, x)
  {
    var c := x[0];
    ForeignEmbeddable(g, u, c);
    SeparatedDrop(g, x, 1);
    EmbedConcat(g, u + [c], x[1..]);
    FirstApart(u, x);
    FindAllPlain(g, [c], x[1..]);
  }

  lemma ForeignEmbeddable(g: Pattern, u: string, c: char)
    requires ValidPattern(g) && Separated(g, u) && Foreign(g, c) && c != '$'
    ensures Embeddable(g, u + [c]) && FindAll(g, u + [c]) == FindAll(g, u)
  {
    ForeignSeals(g, u, c);
    ForeignSeparates(g, u, c);
    ForeignFinds(g, u, c);
  }

  lemma FirstApart(u: string, x: string)
    requires x != ""
    ensures (u + [x[0]]) + x[1..] == u + x && [x[0]] + x[1..] == x
  {
  }

  lemma {:induction false} TokensPlain(i: Pattern, g: Pattern, p: string, x: string, val: map<string, string>)
    requires ValidPattern(i) && ValidPattern(g) && NoDollar(p)
    ensures EmbeddedTokens(i, g, p + x, val) == EmbeddedTokens(i, g, x, val)
  {
    if p == "" {
      assert p + x == x;
    } else {
      ConcatHead(p, x);
      assert (p + x)[1..] == p[1..] + x;
      NoMatchWithoutDollar(i, p + x);
      NoMatchWithoutDollar(g, p + x);
      TokensPlain(i, g, p[1..], x, val);
    }
  }

  /** A segment that is no insert: it stays, with its own placeholder. */
  lemma TokensSegment(i: Pattern, g: Pattern, seg: string, x: string, val: map<string, string>)
    requires ValidPattern(i) && ValidPattern(g) && IsKey(seg) && (x == "" || x[0] == '$') && MatchLen(i, seg + x) == 0
    ensures EmbeddedTokens(i, g, seg + x, val) == HeadToken(g, seg) + EmbeddedTokens(i, g, x, val)
  {
    MatchIsLocal(g, seg, x);
    TokensStep(i, g, seg + x, val);
    var m := if MatchLen(g, seg) > 0 then MatchLen(g, seg) else 1;
    CutKey(seg, x, m);
    TokensPlain(i, g, seg[m..], x, val);
  }

  lemma TokensStep(i: Pattern, g: Pattern, s: string, val: map<string, string>)
    requires s != "" && MatchLen(i, s) == 0
    ensures EmbeddedTokens(i, g, s, val) ==
            (if MatchLen(g, s) > 0 then [s[..MatchLen(g, s)]] else []) + EmbeddedTokens(i, g, s[Step(g, s)..], val)
  {
  }

  lemma ExpandSegment(i: Pattern, seg: string, x: string, val: map<string, string>)
    requires ValidPattern(i) && IsKey(seg) && MatchLen(i, seg + x) == 0
    ensures Expand(i, seg + x, val) == seg + Expand(i, x, val)
  {
    assert (seg + x)[..|seg|] == seg && (seg + x)[|seg|..] == x;
    SkipMatch(i, seg + x, |seg|, val);
  }

  /** A match of one of two patterns is a match of their choice; a text that could grow for one could for the choice. */
  lemma ChoiceMatches(i: Pattern, g: Pattern, s: string)
    ensures MatchLen(Either(i, g), s) > 0 <==> MatchLen(i, s) > 0 || MatchLen(g, s) > 0
  {
  }

  /** What a segment of the template meets after the insertion. */
  lemma AfterSegment(i: Pattern, g: Pattern, seg: string, x: string, val: map<string, string>)
    requires ValidPattern(i) && ValidPattern(g) && IsKey(seg) && (x == "" || x[0] == '$')
    requires MatchLen(Either(i, g), x) > 0 ==> !Extensible(Either(i, g), seg)
    requires x != "" && MatchLen(i, x) == 0 ==> Expand(i, x, val) != "" && Expand(i, x, val)[0] == '$' &&
                                                 MatchLen(g, Expand(i, x, val)) == MatchLen(g, x)
    ensures var y := Expand(i, x, val);
            !Extensible(g, seg) || ((y == "" || y[0] == '$') && MatchLen(g, y) == 0)
  {
    NothingMatchesEmpty(g);
    ChoiceMatches(i, g, x);
  }

  /** The placeholder at the head of the template is not changed by the insertion. */
  lemma HeadStays(i: Pattern, g: Pattern, s: string, val: map<string, string>)
    requires ValidPattern(i) && ValidPattern(g) && Separated(Either(i, g), s)
    requires s != "" && s[0] == '$' && MatchLen(i, s) == 0
    ensures Expand(i, s, val) != "" && Expand(i, s, val)[0] == '$' && MatchLen(g, Expand(i, s, val)) == MatchLen(g, s)
  {
    var seg, x := SegmentCut(s);
    ExpandSegment(i, seg, x, val);
    SegmentBefore(Either(i, g), s);
    var y := Expand(i, x, val);
    if x != "" && MatchLen(i, x) == 0 {
      KeepsDollar(i, x, val);
    }
    MatchIsLocal(g, seg, x);
    MatchIsLocal(g, seg, y);
  }

  lemma KeepsDollar(i: Pattern, x: string, val: map<string, string>)
    requires x != "" && MatchLen(i, x) == 0
    ensures Expand(i, x, val) != "" && Expand(i, x, val)[0] == x[0]
  {
  }

  /** The insertion does what it should. */
  ghost predicate Embeds(i: Pattern, g: Pattern, s: string, val: map<string, string>) {
    Separated(g, Expand(i, s, val)) && FindAll(g, Expand(i, s, val)) == EmbeddedTokens(i, g, s, val)
  }

  lemma EmbedInsert(i: Pattern, g: Pattern, s: string, val: map<string, string>)
    requires ValidPattern(i) && ValidPattern(g) && s != "" && MatchLen(i, s) > 0
    requires CanStand(g, Lookup(val, s[..MatchLen(i, s)]), s[MatchLen(i, s)..]) &&
             Embeds(i, g, s[MatchLen(i, s)..], val)
    ensures Embeds(i, g, s, val)
  {
    var n := MatchLen(i, s);
    var u, x := Lookup(val, s[..n]), s[n..];
    if Sealed(g, u) {
      EmbedConcat(g, u, Expand(i, x, val));
    } else {
      ForeignNoDollar(g, x[0], u);
      NoMatchWithoutDollar(i, x);
      KeepsDollar(i, x, val);
      ForeignConcat(g, u, Expand(i, x, val));
    }
  }

  /** A `$` begins every placeholder, so that it is foreign to none but the empty choice, for which all is sealed. */
  lemma {:induction false} ForeignNoDollar(g: Pattern, c: char, u: string)
    requires ValidPattern(g) && Foreign(g, c) && !Sealed(g, u)
    ensures c != '$'
  {
    if u[0] == '$' && HeadSegment(u) == u && Extensible(g, u) {
      if c == '$' {
        ForeignEnds(g, u, c);
        assert false;
      }
    } else {
      ForeignNoDollar(g, c, u[1..]);
    }
  }

  lemma EmbedChar(i: Pattern, g: Pattern, s: string, val: map<string, string>)
    requires ValidPattern(i) && ValidPattern(g) && s != "" && s[0] != '$' && Embeds(i, g, s[1..], val)
    ensures Embeds(i, g, s, val)
  {
    TakeDrop(s, 1);
    assert NoDollar(s[..1]);
    ExpandPlain(i, s[..1], s[1..], val);
    PlainHead(g, s, Expand(i, s[1..], val));
    TokensPlain(i, g, s[..1], s[1..], val);
  }

  lemma InsertSegment(i: Pattern, g: Pattern, seg: string, x: string, val: map<string, string>)
    requires ValidPattern(i) && ValidPattern(g) && IsKey(seg) && (x == "" || x[0] == '$') && MatchLen(i, seg + x) == 0
    requires Separated(Either(i, g), seg + x) && Separated(Either(i, g), x) && Embeds(i, g, x, val)
    ensures Embeds(i, g, seg + x, val)
  {
    TokensSegment(i, g, seg, x, val);
    ExpandSegment(i, seg, x, val);
    SegmentOfConcat(seg, x);
    assert (seg + x)[|seg|..] == x;
    SegmentBefore(Either(i, g), seg + x);
    if x != "" && MatchLen(i, x) == 0 {
      HeadStays(i, g, x, val);
    }
    AfterSegment(i, g, seg, x, val);
    SeparatedSegment(g, seg, Expand(i, x, val));
    FindAllSegment(g, seg, Expand(i, x, val));
  }

  /**
   * Inserting texts that can stand where they are into a text with separated placeholders and inserts gives a separated
   * text, whose placeholders are those of the template with those of the inserted texts in place of the inserts.
   */
  lemma {:induction false} EmbedAll(i: Pattern, g: Pattern, s: string, val: map<string, string>)
    requires ValidPattern(i) && ValidPattern(g) && Separated(Either(i, g), s) && InsertsFit(i, g, s, val)
    ensures Embeds(i, g, s, val)
    decreases |s|
  {
    if s != "" {
      if MatchLen(i, s) > 0 {
        SeparatedDrop(Either(i, g), s, MatchLen(i, s));
        EmbedAll(i, g, s[MatchLen(i, s)..], val);
        EmbedInsert(i, g, s, val);
      } else if s[0] != '$' {
        EmbedAll(i, g, s[1..], val);
        EmbedChar(i, g, s, val);
      } else {
        var seg, x := SegmentCut(s);
        SeparatedDrop(Either(i, g), s, |seg|);
        InsertsFitDrop(i, g, seg, x, val);
        EmbedAll(i, g, x, val);
        InsertSegment(i, g, seg, x, val);
      }
    }
  }

  // ---------------------------------------------------------------- inserting plain texts

  lemma {:induction false} PlainInserts(i: Pattern, g: Pattern, s: string, val: map<string, string>)
    requires PlainValues(val)
    ensures InsertsFit(i, g, s, val)
  {
    if s != "" {
      var n := MatchLen(i, s);
      PlainInserts(i, g, s[if n > 0 then n else 1..], val);
      if n > 0 {
        PlainEmbeddable(g, Lookup(val, s[..n]));
      }
    }
  }

  lemma PlainEmbeddable(g: Pattern, p: string)
    requires NoDollar(p)
    ensures Embeddable(g, p)
  {
    PlainSealed(g, p);
    SeparatedPlain(g, p, "");
    assert p + "" == p;
  }

  lemma {:induction false} PlainSealed(g: Pattern, p: string)
    requires NoDollar(p)
    ensures Sealed(g, p)
  {
    if p != "" {
      PlainSealed(g, p[1..]);
    }
  }

  // ---------------------------------------------------------------- joining embeddable texts

  /** Separated texts, joined by commas. */
  lemma {:induction false} JoinSeparated(g: Pattern, parts: seq<string>)
    requires ValidPattern(g) && Foreign(g, ',') && forall i :: 0 <= i < |parts| ==> Separated(g, parts[i])
    ensures Separated(g, Join(parts, ","))
    ensures |parts| > 1 ==> FindAll(g, Join(parts, ",")) == FindAll(g, parts[0]) + FindAll(g, Join(parts[1..], ","))
  {
    if |parts| > 1 {
      JoinSeparated(g, parts[1..]);
      var rest := Join(parts[1..], ",");
      SeparatedPlain(g, ",", rest);
      ForeignConcat(g, parts[0], "," + rest);
      FindAllPlain(g, ",", rest);
      ConcatAssoc(parts[0], ",", rest);
    }
  }

  // ---------------------------------------------------------------- one placeholder in its text

  /** Before a `$` the scan does not look at what follows. */
  lemma MatchBeforeDollar(g: Pattern, a: string, x: string)
    requires ValidPattern(g) && a != "" && (x == "" || x[0] == '$')
    ensures MatchLen(g, a + x) == MatchLen(g, a)
  {
    if a[0] == '$' {
      var seg, rest := SegmentCut(a);
      ConcatAssoc(seg, rest, x);
      assert rest != "" ==> (rest + x)[0] == '$';
      assert rest == "" ==> rest + x == x;
      MatchIsLocal(g, seg, rest + x);
      MatchIsLocal(g, seg, rest);
    } else {
      assert (a + x)[0] == a[0];
      NoMatchWithoutDollar(g, a);
      NoMatchWithoutDollar(g, a + x);
    }
  }

  lemma ExpandHead(g: Pattern, a: string, x: string, val: map<string, string>)
    requires ValidPattern(g) && a != "" && (x == "" || x[0] == '$')
    ensures Expand(g, a + x, val) == Shown(g, a, val) + Expand(g, a[Step(g, a)..] + x, val)
  {
    MatchBeforeDollar(g, a, x);
    CutConcat(a, x, Step(g, a));
    ExpandStep(g, a + x, val);
  }

  /** The two texts are expanded one after the other. */
  predicate ExpandsApart(g: Pattern, a: string, x: string, val: map<string, string>) {
    Expand(g, a + x, val) == Expand(g, a, val) + Expand(g, x, val)
  }

  lemma {:induction false} ExpandBeforeDollar(g: Pattern, a: string, x: string, val: map<string, string>)
    requires ValidPattern(g) && (x == "" || x[0] == '$')
    ensures ExpandsApart(g, a, x, val)
    decreases |a|
  {
    if a == "" {
      NothingApart(g, x, val);
    } else {
      var rest := a[Step(g, a)..];
      ExpandBeforeDollar(g, rest, x, val);
      ExpandMore(g, a, rest, x, val);
    }
  }

  lemma NothingApart(g: Pattern, x: string, val: map<string, string>)
    ensures ExpandsApart(g, "", x, val)
  {
    EmptyFirst(x);
    EmptyFirst(Expand(g, x, val));
  }

  lemma ExpandMore(g: Pattern, a: string, rest: string, x: string, val: map<string, string>)
    requires ValidPattern(g) && a != "" && rest == a[Step(g, a)..] && (x == "" || x[0] == '$')
    requires ExpandsApart(g, rest, x, val)
    ensures ExpandsApart(g, a, x, val)
  {
    ExpandHead(g, a, x, val);
    ExpandStep(g, a, val);
    ConcatAssoc(Shown(g, a, val), Expand(g, rest, val), Expand(g, x, val));
  }

  lemma {:induction false} FindAllBeforeDollar(g: Pattern, a: string, x: string)
    requires ValidPattern(g) && (x == "" || x[0] == '$')
    ensures FindAll(g, a + x) == FindAll(g, a) + FindAll(g, x)
    decreases |a|
  {
    if a == "" {
      assert a + x == x;
    } else {
      MatchBeforeDollar(g, a, x);
      var m := Step(g, a);
      FindAllBeforeDollar(g, a[m..], x);
      CutConcat(a, x, m);
      FindAllStep(g, a);
      FindAllStep(g, a + x);
      TokensAssoc(if MatchLen(g, a) > 0 then [a[..m]] else [], FindAll(g, a[m..]), FindAll(g, x));
    }
  }

  /** A placeholder in a text: its value stands between what becomes of the text before it and of the text after it. */
  lemma ExpandAround(g: Pattern, before: string, t: string, after: string, val: map<string, string>)
    requires ValidPattern(g) && t != "" && t[0] == '$' && MatchLen(g, t + after) == |t|
    ensures Expand(g, before + (t + after), val) == Expand(g, before, val) + (Lookup(val, t) + Expand(g, after, val))
    ensures t in FindAll(g, before + (t + after))
  {
    var x := t + after;
    ExpandBeforeDollar(g, before, x, val);
    FindAllBeforeDollar(g, before, x);
    assert x[..|t|] == t && x[|t|..] == after;
    ExpandStep(g, x, val);
    FindAllStep(g, x);
  }
}
