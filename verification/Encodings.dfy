/**
 * What `encodeByte64ToString` computes on every text with closed markers, and when it codes exactly the marked spans.
 */
module Encodings {
  import opened Text
  import opened Decimal
  import opened Pieces
  import opened Scan
  import opened Stages
  import opened Base64
  import opened Blueprint
  import opened Markers

  /** Every marker with its value is replaced by the code of the value. */
  function Recoded(s: string): string {
    if s == "" then ""
    else
      var n := MarkedLen(s);
      if n > 0 then Encode(Payload(s[..n])) + Recoded(s[n..]) else [s[0]] + Recoded(s[1..])
  }

  /** A marker with a value. */
  predicate IsMark(t: string) {
    MARK <= t && forall i :: |MARK| <= i < |t| ==> Quoted.Has(t[i])
  }

  predicate AllMarks(toks: seq<string>) {
    forall i :: 0 <= i < |toks| ==> IsMark(toks[i])
  }

  lemma MarkShape(t: string)
    requires IsMark(t)
    ensures t == MARK + Payload(t) && NoDollar(Payload(t)) && '"' !in t && IsKey(t)
    ensures MarkedValue(t + "\"") == Payload(t)
  {
    MarkIsKey();
    var v := Payload(t);
    assert forall i :: 0 <= i < |v| ==> v[i] == t[|MARK|+i];
    assert forall i :: 0 <= i < |MARK| ==> t[i] == MARK[i];
    KeyChars(MARK);
    assert t + "\"" == MARK + (v + "\"");
    ReplaceHead(MARK, v + "\"");
    DropQuotes(v);
  }

  lemma HeadIsMark(s: string)
    requires MARK <= s
    ensures IsMark(s[..MarkedLen(s)])
  {
    var t := s[..MarkedLen(s)];
    assert forall i :: |MARK| <= i < |t| ==> t[i] == s[|MARK|..][i-|MARK|];
  }

  lemma {:induction false} MarksAreMarks(s: string)
    ensures AllMarks(MarkedSpans(s))
  {
    if s != "" {
      var n := MarkedLen(s);
      if n > 0 {
        HeadIsMark(s);
        MarksAreMarks(s[n..]);
      } else {
        MarksAreMarks(s[1..]);
      }
    }
  }

  lemma MarksAreKeys(toks: seq<string>)
    requires AllMarks(toks)
    ensures AllKeys(toks)
  {
    forall i | 0 <= i < |toks| ensures IsKey(toks[i]) {
      MarkShape(toks[i]);
    }
  }

  // ---------------------------------------------------------------- nothing completes a marker

  /** A `$` whose text could grow into one of the markers is cut short of the marker's head. */
  lemma CutMark(s: string, toks: seq<string>)
    requires s != "" && s[0] == '$' && Ended(s) && AllMarks(toks) && Extensible(OneOf(toks), HeadSegment(s))
    ensures Extensible(OneOf([MARK]), HeadSegment(s))
  {
    var seg := HeadSegment(s);
    var i :| 0 <= i < |toks| && ProperPrefix(seg, toks[i]);
    MarkShape(toks[i]);
    if MARK <= s {
      QuoteInSegment(s);
    }
    PrefixLacks(seg, toks[i], '"');
    PrefixesCompare(MARK, seg, toks[i]);
    assert [MARK][0] == MARK;
  }

  lemma PrefixLacks(a: string, b: string, c: char)
    requires a <= b && c !in b
    ensures c !in a
  {
    assert forall i :: 0 <= i < |a| ==> a[i] == b[i];
  }

  lemma QuoteInSegment(s: string)
    requires Ended(s) && MARK <= s && s[0] == '$'
    ensures '"' in HeadSegment(s)
  {
    var n := MarkedLen(s);
    HeadIsMark(s);
    MarkShape(s[..n]);
    SegmentSplit(s, n);
    assert s[n..][0] == '"';
    assert PlainLen(s[n..]) > 0;
    assert HeadSegment(s)[n] == s[n];
  }

  lemma {:induction false} NothingCompletes(s: string, toks: seq<string>)
    requires Ended(s) && Separated(OneOf([MARK]), s) && AllMarks(toks)
    ensures Separated(OneOf(toks), s)
  {
    if s != "" {
      NothingCompletes(s[1..], toks);
      if s[0] == '$' {
        var x := s[|HeadSegment(s)|..];
        if MatchLen(OneOf(toks), x) > 0 && Extensible(OneOf(toks), HeadSegment(s)) {
          CutMark(s, toks);
          MarkFollows(x, toks);
        }
      }
    }
  }

  lemma MarkFollows(x: string, toks: seq<string>)
    requires AllMarks(toks) && MatchLen(OneOf(toks), x) > 0
    ensures MARK <= x && MatchLen(OneOf([MARK]), x) > 0
  {
    var i := FirstKeyIndex(toks, x);
    assert MARK <= toks[i] <= x;
  }

  // ---------------------------------------------------------------- the values that the expression takes

  /** What the loop replaces: a marker before the value of each match. */
  function TakenKeys(marks: seq<string>): (keys: seq<string>)
    ensures |keys| == |marks| && forall i :: 0 <= i < |marks| ==> keys[i] == MARK + MarkedValue(marks[i])
  {
    if marks == [] then [] else TakenKeys(marks[..|marks|-1]) + [MARK + MarkedValue(marks[|marks|-1])]
  }

  function Keys(s: string): seq<string> {
    TakenKeys(FindMarks(s))
  }

  /** The values that the expression takes hold no `$`. */
  predicate TakenPlain(s: string) {
    forall i :: 0 <= i < |FindMarks(s)| ==> NoDollar(MarkedValue(FindMarks(s)[i]))
  }

  lemma {:induction false} OneLine(s: string)
    ensures LastQuote(s).Some? ==> '\n' !in s[..LastQuote(s).value+1]
  {
    if s != "" && s[0] != '\n' {
      OneLine(s[1..]);
      if LastQuote(s[1..]).Some? {
        assert s[..LastQuote(s).value+1] == [s[0]] + s[1..][..LastQuote(s[1..]).value+1];
      }
    }
  }

  lemma MatchOnLine(s: string)
    requires MarkLen(s) > 0
    ensures '\n' !in s[..MarkLen(s)]
  {
    var rest := s[|MARK|..];
    OneLine(rest);
    assert s[..MarkLen(s)] == MARK + rest[..LastQuote(rest).value+1];
    assert '\n' !in MARK;
  }

  /** A match, and so its value, is within one line. */
  lemma {:induction false} MatchesOnLine(s: string)
    ensures forall i :: 0 <= i < |FindMarks(s)| ==> '\n' !in FindMarks(s)[i]
  {
    if s != "" {
      var n := MarkLen(s);
      if n > 0 {
        MatchOnLine(s);
        MatchesOnLine(s[n..]);
      } else {
        MatchesOnLine(s[1..]);
      }
    }
  }

  lemma ValueShape(m: string)
    requires '\n' !in m
    ensures '\n' !in MarkedValue(m) && '"' !in MarkedValue(m)
  {
    var x := ReplaceAll(m, MARK, "");
    ReplaceLacks(m, MARK, "", '\n');
    ReplaceLacks(x, "\"", "", '\n');
    QuotesDropped(x);
  }

  lemma KeyIsMark(u: string)
    requires '\n' !in u && '"' !in u && NoDollar(u)
    ensures IsMark(MARK + u) && Payload(MARK + u) == u
  {
    assert forall i :: |MARK| <= i < |MARK + u| ==> (MARK + u)[i] == u[i-|MARK|];
  }

  lemma KeysAreMarks(s: string)
    requires TakenPlain(s)
    ensures AllMarks(Keys(s)) && AllKeys(Keys(s))
    ensures forall i :: 0 <= i < |FindMarks(s)| ==> Payload(Keys(s)[i]) == MarkedValue(FindMarks(s)[i])
  {
    MatchesOnLine(s);
    forall i | 0 <= i < |FindMarks(s)|
      ensures IsMark(Keys(s)[i]) && Payload(Keys(s)[i]) == MarkedValue(FindMarks(s)[i])
    {
      ValueShape(FindMarks(s)[i]);
      KeyIsMark(MarkedValue(FindMarks(s)[i]));
    }
    MarksAreKeys(Keys(s));
  }

  lemma {:induction false} RoundsOfKeys(s: string, marks: seq<string>, val: map<string, string>)
    requires AllKeys(TakenKeys(marks))
    requires forall i :: 0 <= i < |marks| ==> Lookup(val, MARK + MarkedValue(marks[i])) == Encode(MarkedValue(marks[i]))
    ensures EncodeRounds(s, marks) == Chain(s, TakenKeys(marks), val)
  {
    if marks != [] {
      var init, last := marks[..|marks|-1], marks[|marks|-1];
      KeysSnoc(TakenKeys(init), MARK + MarkedValue(last));
      RoundsOfKeys(s, init, val);
    }
  }

  lemma KeysSnoc(keys: seq<string>, k: string)
    requires AllKeys(keys + [k])
    ensures AllKeys(keys) && (keys + [k])[..|keys|] == keys
  {
    assert forall i :: 0 <= i < |keys| ==> (keys + [k])[i] == keys[i];
  }

  /**
   * What the encoding computes: one pass in which every marker is replaced by the code of the first value that the
   * expression takes and that begins the marker's own, followed by the rest of its value; however many markers and
   * quotes a line has.
   */
  lemma EncodingMeaning(s: string)
    requires Ended(s) && TakenPlain(s) && Separated(OneOf([MARK]), s)
    ensures EncodedText(s) == Expand(OneOf(Keys(s)), s, CodedValues(Keys(s)))
  {
    var keys, val := Keys(s), CodedValues(Keys(s));
    KeysAreMarks(s);
    forall i | 0 <= i < |FindMarks(s)|
      ensures Lookup(val, MARK + MarkedValue(FindMarks(s)[i])) == Encode(MarkedValue(FindMarks(s)[i]))
    {
      assert keys[i] in keys;
    }
    RoundsOfKeys(s, FindMarks(s), val);
    CodedIsPlain(keys);
    NothingCompletes(s, keys);
    KeysInOrder(keys, s, val);
  }

  // ---------------------------------------------------------------- exactly the marked spans

  /** Text after a code never makes it the code of a longer value. */
  lemma {:induction false} CodesApart(v: string, x: string)
    ensures Encode(v) + x == Encode(v + x) <==> x == ""
  {
    if x == "" {
      assert v + x == v && Encode(v) + x == Encode(v);
    } else if |v| >= 3 {
      CodesApart(v[3..], x);
      assert (v + x)[3..] == v[3..] + x;
      SameHead(Quad(ByteOf(v[0]), ByteOf(v[1]), ByteOf(v[2])), Encode(v[3..]), x, Encode(v[3..] + x));
    } else if v == "" {
      assert v + x == x && Encode(v) + x == x;
      CodeIsLonger(x);
    } else if |v + x| >= 3 {
      QuadSextets(ByteOf((v + x)[0]), ByteOf((v + x)[1]), ByteOf((v + x)[2]));
      assert (Encode(v) + x)[3] == '=';
    } else {
      assert |Encode(v) + x| == 5;
    }
  }

  lemma SameHead(q: string, a: string, x: string, b: string)
    ensures (q + a) + x == q + b <==> a + x == b
  {
    ConcatAssoc(q, a, x);
    assert (q + (a + x))[|q|..] == a + x && (q + b)[|q|..] == b;
  }

  lemma {:induction false} CodeIsLonger(x: string)
    requires x != ""
    ensures |Encode(x)| > |x|
  {
    if |x| > 3 {
      CodeIsLonger(x[3..]);
    }
  }

  lemma QuoteAligns(a: string, b: string, x: string, y: string)
    requires '"' !in a && '"' !in b
    ensures a + ("\"" + x) == b + ("\"" + y) <==> a == b && x == y
  {
    if |a| < |b| {
      QuoteEarlier(a, b, x, y);
    } else if |b| < |a| {
      QuoteEarlier(b, a, y, x);
    } else {
      var s, t := a + ("\"" + x), b + ("\"" + y);
      assert s[..|a|] == a && t[..|a|] == b;
      assert s[|a|+1..] == x && t[|a|+1..] == y;
    }
  }

  lemma QuoteEarlier(a: string, b: string, x: string, y: string)
    requires |a| < |b| && '"' !in b
    ensures a + ("\"" + x) != b + ("\"" + y)
  {
    assert (a + ("\"" + x))[|a|] == '"';
    assert (b + ("\"" + y))[|a|] == b[|a|];
  }

  /** The first marker found at a marker is found in the marker itself. */
  lemma FoundWithin(toks: seq<string>, t: string, y: string)
    requires Lacks(toks, '"')
    ensures FirstKey(toks, t + ("\"" + y)) == FirstKey(toks, t)
  {
    KeyStopsAt(toks, t, '"', y);
  }

  /** One marker with its closing quote. */
  lemma MarkedHead(toks: seq<string>, t: string, y: string, coded: string)
    requires AllMarks(toks) && IsMark(t)
    ensures Expand(OneOf(toks), t + ("\"" + y), CodedValues(toks)) == Encode(Payload(t)) + ("\"" + coded) <==>
            Whole(toks, t) && Expand(OneOf(toks), y, CodedValues(toks)) == coded
  {
    MarksAreKeys(toks);
    if FirstKey(toks, t) == 0 {
      MarkStays(toks, t, y);
      MarkIsNoCode(t);
      CodeIsPlain(Payload(t));
      MarkShape(t);
      QuoteAligns(t, Encode(Payload(t)), Expand(OneOf(toks), y, CodedValues(toks)), coded);
    } else {
      KnownHead(toks, t, y, coded);
    }
  }

  lemma MarkIsNoCode(t: string)
    requires IsMark(t)
    ensures t != Encode(Payload(t))
  {
    CodeIsPlain(Payload(t));
    assert MARK[0] == '$' && t[0] == MARK[0];
  }

  /** A marker that no key begins is copied. */
  lemma MarkStays(toks: seq<string>, t: string, y: string)
    requires AllMarks(toks) && AllKeys(toks) && IsMark(t) && FirstKey(toks, t) == 0
    ensures Expand(OneOf(toks), t + ("\"" + y), CodedValues(toks)) ==
            t + ("\"" + Expand(OneOf(toks), y, CodedValues(toks)))
  {
    var pat, val := OneOf(toks), CodedValues(toks);
    forall i | 0 <= i < |toks| ensures '"' !in toks[i] { MarkShape(toks[i]); }
    FoundWithin(toks, t, y);
    MarkShape(t);
    SplitAt(t, y, 1);
    ExpandPlain(pat, t[1..] + "\"", y, val);
    Regrouped([t[0]], t[1..], Expand(pat, y, val));
    assert [t[0]] + t[1..] == t && t[..1] == [t[0]];
  }

  lemma KnownHead(toks: seq<string>, t: string, y: string, coded: string)
    requires AllMarks(toks) && AllKeys(toks) && IsMark(t) && FirstKey(toks, t) > 0
    ensures Expand(OneOf(toks), t + ("\"" + y), CodedValues(toks)) == Encode(Payload(t)) + ("\"" + coded) <==>
            Whole(toks, t) && Expand(OneOf(toks), y, CodedValues(toks)) == coded
  {
    HeadKey(toks, t);
    MarkExpands(toks, t, y);
    TakeDrop(t, FirstKey(toks, t));
    CodeAligns(t, t[..FirstKey(toks, t)], t[FirstKey(toks, t)..], Expand(OneOf(toks), y, CodedValues(toks)), coded);
  }

  lemma CodeAligns(t: string, h: string, x: string, z: string, coded: string)
    requires IsMark(t) && IsMark(h) && t == h + x
    ensures (Encode(Payload(h)) + x) + ("\"" + z) == Encode(Payload(t)) + ("\"" + coded) <==> x == "" && z == coded
  {
    MarkParts(t, h, x);
    CodeIsPlain(Payload(h));
    CodeIsPlain(Payload(t));
    QuoteAligns(Encode(Payload(h)) + x, Encode(Payload(t)), z, coded);
    CodesApart(Payload(h), x);
  }

  /** A marker is replaced by the code of the first marker that begins it, followed by what is left of it. */
  lemma MarkExpands(toks: seq<string>, t: string, y: string)
    requires AllMarks(toks) && IsMark(t) && AllKeys(toks) && FirstKey(toks, t) > 0
    ensures var k := FirstKey(toks, t);
            Expand(OneOf(toks), t + ("\"" + y), CodedValues(toks)) ==
            (Encode(Payload(t[..k])) + t[k..]) + ("\"" + Expand(OneOf(toks), y, CodedValues(toks)))
  {
    var pat, val, k := OneOf(toks), CodedValues(toks), FirstKey(toks, t);
    forall i | 0 <= i < |toks| ensures '"' !in toks[i] { MarkShape(toks[i]); }
    FoundWithin(toks, t, y);
    HeadKey(toks, t);
    MarkParts(t, t[..k], t[k..]);
    SplitAt(t, y, k);
    ExpandPlain(pat, t[k..] + "\"", y, val);
    Regrouped(Encode(Payload(t[..k])), t[k..], Expand(pat, y, val));
  }

  lemma SplitAt(t: string, y: string, k: nat)
    requires k <= |t|
    ensures var s := t + ("\"" + y); s[..k] == t[..k] && s[k..] == (t[k..] + "\"") + y
  {
  }

  lemma MarkParts(t: string, h: string, x: string)
    requires IsMark(t) && IsMark(h) && t == h + x
    ensures Payload(t) == Payload(h) + x && NoDollar(x) && '"' !in x
  {
    MarkShape(t);
    MarkShape(h);
    PayloadParts(h, x);
    forall i | 0 <= i < |x| ensures Quoted.Has(x[i]) {
      assert x[i] == t[|h|+i];
    }
  }

  lemma PayloadParts(h: string, x: string)
    requires |h| >= |MARK|
    ensures Payload(h + x) == Payload(h) + x
  {
  }

  lemma Regrouped(c: string, x: string, z: string)
    ensures c + ((x + "\"") + z) == (c + x) + ("\"" + z)
  {
  }

  lemma HeadKey(toks: seq<string>, t: string)
    requires AllMarks(toks) && FirstKey(toks, t) > 0
    ensures IsMark(t[..FirstKey(toks, t)]) && t[..FirstKey(toks, t)] in toks
  {
  }

  ghost predicate ExactIff(s: string, toks: seq<string>) {
    Expand(OneOf(toks), s, CodedValues(toks)) == Recoded(s) <==> forall t :: t in MarkedSpans(s) ==> Whole(toks, t)
  }

  /** The encoding is exact when of every marker it is the whole that is replaced, and only then. */
  lemma {:induction false} ExactIffWhole(s: string, toks: seq<string>)
    requires Ended(s) && AllMarks(toks)
    ensures ExactIff(s, toks)
  {
    if s != "" {
      var n := MarkedLen(s);
      if n > 0 {
        EndedDrop(s, n + 1);
        ExactIffWhole(s[n+1..], toks);
        ExactAtMark(s, toks);
      } else {
        ExactIffWhole(s[1..], toks);
        ExactAtChar(s, toks);
      }
    } else {
      ExactAtEnd(toks);
    }
  }

  lemma ExactAtEnd(toks: seq<string>)
    ensures ExactIff("", toks)
  {
  }

  lemma ExactAtChar(s: string, toks: seq<string>)
    requires s != "" && AllMarks(toks) && MarkedLen(s) == 0
    requires ExactIff(s[1..], toks)
    ensures ExactIff(s, toks)
  {
    NoKeyHere(s, toks);
    SameTail([s[0]], Expand(OneOf(toks), s[1..], CodedValues(toks)), Recoded(s[1..]));
  }

  lemma SameTail(q: string, a: string, b: string)
    ensures q + a == q + b <==> a == b
  {
    assert (q + a)[|q|..] == a && (q + b)[|q|..] == b;
  }

  lemma ExactAtMark(s: string, toks: seq<string>)
    requires Ended(s) && AllMarks(toks) && 0 < MarkedLen(s) < |s|
    requires ExactIff(s[MarkedLen(s)+1..], toks)
    ensures ExactIff(s, toks)
  {
    var n := MarkedLen(s);
    HeadIsMark(s);
    RecodedAfterQuote(s, n);
    MarksAfterQuote(s, n);
    CutAtQuote(s, n);
    ExactCons(s, s[..n], s[n+1..], toks);
  }

  lemma CutAtQuote(s: string, n: nat)
    requires n < |s| && s[n] == '"'
    ensures s == s[..n] + ("\"" + s[n+1..])
  {
  }

  lemma ExactCons(s: string, t: string, y: string, toks: seq<string>)
    requires AllMarks(toks) && IsMark(t) && s == t + ("\"" + y)
    requires Recoded(s) == Encode(Payload(t)) + ("\"" + Recoded(y)) && MarkedSpans(s) == [t] + MarkedSpans(y)
    requires ExactIff(y, toks)
    ensures ExactIff(s, toks)
  {
    MarkedHead(toks, t, y, Recoded(y));
    AllWhole(t, MarkedSpans(y), toks);
  }

  lemma AllWhole(t: string, rest: seq<string>, toks: seq<string>)
    ensures (forall u :: u in [t] + rest ==> Whole(toks, u)) <==>
            Whole(toks, t) && forall u :: u in rest ==> Whole(toks, u)
  {
    assert ([t] + rest)[0] == t;
    assert forall u :: u in rest ==> u in [t] + rest;
  }

  lemma RecodedAfterQuote(s: string, n: nat)
    requires n == MarkedLen(s) && 0 < n < |s| && s[n] == '"'
    ensures Recoded(s) == Encode(Payload(s[..n])) + ("\"" + Recoded(s[n+1..]))
  {
    assert MARK[0] == '$' && s[n..][0] == '"';
    assert s[n..][1..] == s[n+1..];
  }

  lemma NoKeyHere(s: string, toks: seq<string>)
    requires AllMarks(toks) && !(MARK <= s)
    ensures FirstKey(toks, s) == 0
  {
    if FirstKey(toks, s) > 0 {
      MarkFollows(s, toks);
      assert false;
    }
  }

  /**
   * The encoding replaces exactly the marked spans if and only if the first value that the expression takes and that
   * begins a marker's own is the whole of it, for every marker.
   */
  lemma EncodingIff(s: string)
    requires Ended(s) && TakenPlain(s) && Separated(OneOf([MARK]), s)
    ensures EncodedText(s) == Recoded(s) <==> forall t :: t in MarkedSpans(s) ==> Whole(Keys(s), t)
  {
    EncodingMeaning(s);
    KeysAreMarks(s);
    ExactIffWhole(s, Keys(s));
  }

  /** With one marker per line and no later quote there, the values that the expression takes are the marked ones. */
  lemma ClosedKeys(s: string)
    requires Closed(s)
    ensures Ended(s) && TakenPlain(s) && Keys(s) == MarkedSpans(s) && AllKeys(Keys(s))
  {
    var toks := MarkedSpans(s);
    ClosedIsEnded(s);
    MarksFound(s);
    MarksAreMarks(s);
    WithQuotesAt(toks);
    forall i | 0 <= i < |toks|
      ensures MARK + MarkedValue(FindMarks(s)[i]) == toks[i] && NoDollar(MarkedValue(FindMarks(s)[i]))
    {
      MarkShape(toks[i]);
    }
    assert |Keys(s)| == |toks| && forall i :: 0 <= i < |toks| ==> Keys(s)[i] == toks[i];
    MarksAreKeys(toks);
  }

  lemma {:induction false} WithQuotesAt(toks: seq<string>)
    ensures |WithQuotes(toks)| == |toks| && forall i :: 0 <= i < |toks| ==> WithQuotes(toks)[i] == toks[i] + "\""
  {
    if toks != [] {
      WithQuotesAt(toks[1..]);
    }
  }

  /** Then the encoding is exact if and only if no marked value begins a later one. */
  lemma ClosedIff(s: string)
    requires Closed(s) && Separated(OneOf([MARK]), s)
    ensures EncodedText(s) == Recoded(s) <==> ShorterLast(MarkedSpans(s))
  {
    ClosedKeys(s);
    EncodingIff(s);
    WholeIffShorterLast(MarkedSpans(s));
  }

  // ---------------------------------------------------------------- two markers on one line

  /** Without its quotes a text keeps all its other characters. */
  lemma {:induction false} QuotesDropped(s: string)
    ensures var r := ReplaceAll(s, "\"", ""); '"' !in r && |r| == |s| - Count(s, '"')
  {
    if s != "" {
      QuotesDropped(s[1..]);
      assert "\"" <= s <==> s[0] == '"';
    }
  }

  lemma {:induction false} CountAtMost(s: string, c: char)
    ensures Count(s, c) <= |s|
  {
    if s != "" {
      CountAtMost(s[1..], c);
    }
  }

  /** Two values of one line, with what stands between them. */
  predicate TwoValues(v: string, mid: string, w: string) {
    && v != "" && w != "" && '"' !in v && '"' !in w && '\n' !in v && '\n' !in mid && '\n' !in w
    && NoDollar(v) && NoDollar(mid) && NoDollar(w)
  }

  /** The value that the greedy expression takes from a line with two markers. */
  lemma TakenTogether(v: string, mid: string, w: string)
    requires TwoValues(v, mid, w)
    ensures var u := MarkedValue((MARK + (v + "\"" + mid)) + (MARK + (w + "\"")));
            '"' !in u && NoDollar(u) && |u| > |v| && |u| > |w|
  {
    MarkIsKey();
    var a, b := v + "\"" + mid, w + "\"";
    ConcatAssoc(MARK, a, MARK + b);
    ReplaceHit(a + (MARK + b), MARK, "");
    ReplacePlain(a, MARK + b, MARK, "");
    ReplaceHead(MARK, b);
    assert "" + (a + b) == a + b;
    QuotesDropped(a + b);
    CountConcat(a, b, '"');
    CountConcat(v + "\"", mid, '"');
    CountConcat(v, "\"", '"');
    CountConcat(w, "\"", '"');
    CountAbsent(v, '"');
    CountAbsent(w, '"');
    CountAtMost(mid, '"');
    CountAtMost("\"", '"');
    ReplaceLacks(a + b, "\"", "", '$');
  }

  lemma LongerIsNotThere(u: string, v: string, y: string)
    requires '"' !in u && |u| > |v|
    ensures !(MARK + u <= MARK + (v + ("\"" + y)))
  {
    assert (MARK + (v + ("\"" + y)))[|MARK|+|v|] == '"';
    assert (MARK + u)[|MARK|+|v|] == u[|v|];
  }

  /** On a line with two markers the expression takes both for one, and nothing is coded. */
  lemma TwoOnALine(before: string, v: string, mid: string, w: string, after: string)
    requires TwoValues(v, mid, w) && NoDollar(before) && NoDollar(after) && LastQuote(after).None?
    ensures var s := before + (("$base64-" + (v + "\"" + mid)) + ("$base64-" + (w + "\"" + after))); EncodedText(s) == s
  {
    var h, t, u := MARK + (v + "\"" + mid), MARK + (w + "\"" + after),
        MarkedValue((MARK + (v + "\"" + mid)) + (MARK + (w + "\"")));
    var s := before + (h + t);
    TakenTogether(v, mid, w);
    FoundTogether(before, v + "\"" + mid, w, after);
    NotCoded(before, v, mid, w, after, u);
    assert EncodeRounds(s, []) == s;
  }

  lemma FoundTogether(before: string, x: string, w: string, after: string)
    requires '\n' !in x && '\n' !in w && NoDollar(before) && NoDollar(after) && LastQuote(after).None?
    ensures FindMarks(before + ((MARK + x) + (MARK + (w + "\"" + after)))) == [(MARK + x) + (MARK + (w + "\""))]
  {
    Together(MARK, x, w, after);
    NoMarkInPlain(before, (MARK + x) + (MARK + (w + "\"" + after)));
    assert '\n' !in MARK;
    OneMatch(x + (MARK + w), after);
  }

  lemma Together(h: string, x: string, w: string, after: string)
    ensures (h + x) + (h + (w + "\"" + after)) == (h + ((x + (h + w)) + "\"")) + after
    ensures (h + x) + (h + (w + "\"")) == h + ((x + (h + w)) + "\"")
  {
  }

  lemma OneMatch(z: string, after: string)
    requires '\n' !in z && LastQuote(after).None? && NoDollar(after)
    ensures var m := MARK + (z + "\""); FindMarks(m + after) == [m]
  {
    var m := MARK + (z + "\"");
    var s := m + after;
    QuoteAfterValue(z, after);
    assert s[|MARK|..] == z + "\"" + after;
    assert s[..|m|] == m && s[|m|..] == after;
    NoMarkInPlain(after, "");
    assert after + "" == after;
  }

  lemma NotCoded(before: string, v: string, mid: string, w: string, after: string, u: string)
    requires TwoValues(v, mid, w) && NoDollar(before) && NoDollar(after)
    requires '"' !in u && NoDollar(u) && |u| > |v| && |u| > |w|
    ensures var s := before + ((MARK + (v + "\"" + mid)) + (MARK + (w + "\"" + after)));
            ReplaceAll(s, MARK + u, Encode(u)) == s
  {
    MarkIsKey();
    var h, t, k := MARK + (v + "\"" + mid), MARK + (w + "\"" + after), MARK + u;
    PlainTail(MARK, u);
    PlainTail(MARK, v + "\"" + mid);
    PlainTail(MARK, w + "\"" + after);
    FirstValue(MARK, v, mid, t);
    FirstValue(MARK, w, after, "");
    LongerIsNotThere(u, v, mid + t);
    LongerIsNotThere(u, w, after + "");
    ReplacePlain(before, h + t, k, Encode(u));
    ReplaceMiss(h, t, k, Encode(u));
    ReplaceMiss(t, "", k, Encode(u));
    assert t + "" == t;
  }

  lemma FirstValue(h: string, v: string, mid: string, t: string)
    ensures (h + (v + "\"" + mid)) + t == h + (v + ("\"" + (mid + t)))
  {
  }

  lemma PlainTail(h: string, p: string)
    requires IsKey(h) && NoDollar(p)
    ensures IsKey(h + p)
  {
    assert (h + p)[1..] == h[1..] + p;
  }

  // ---------------------------------------------------------------- one marker

  /** The first line of the text has no quote. */
  predicate NoMoreQuote(after: string) {
    forall i :: 0 <= i < |after| && after[i] == '"' ==> '\n' in after[..i]
  }

  lemma {:induction false} NoQuoteLeft(after: string)
    requires NoMoreQuote(after)
    ensures LastQuote(after).None?
  {
    if after != "" && after[0] != '\n' {
      forall i | 0 <= i < |after| - 1 && after[1..][i] == '"' ensures '\n' in after[1..][..i] {
        assert after[i+1] == '"' && after[..i+1] == [after[0]] + after[1..][..i];
      }
      NoQuoteLeft(after[1..]);
      assert after[..0] == "" && after[0] != '"';
    }
  }

  /** One marker whose value ends at the last quote of its line becomes the code of the value; all else stays. */
  lemma OneMarker(before: string, v: string, after: string)
    requires NoDollar(before) && NoDollar(v) && NoDollar(after) && '"' !in v && '\n' !in v && NoMoreQuote(after)
    ensures EncodedText(before + ("$base64-" + (v + ("\"" + after)))) == before + (Encode(v) + ("\"" + after))
  {
    var m := MARK + (v + "\"");
    var rest := "\"" + after;
    var s := before + (m + after);
    NoQuoteLeft(after);
    NoMarkInPlain(before, m + after);
    OneMatch(v, after);
    ValueOfMark(v);
    SplitMark(MARK, v, after);
    OneRound(s, m);
    MarkIsKey();
    PlainTail(MARK, v);
    ReplacePlain(before, m + after, MARK + v, Encode(v));
    ReplaceHit(rest, MARK + v, Encode(v));
    ReplacePlain(rest, "", MARK + v, Encode(v));
    assert rest + "" == rest;
  }

  lemma SplitMark(h: string, v: string, after: string)
    ensures (h + (v + "\"")) + after == h + (v + ("\"" + after)) == (h + v) + ("\"" + after)
  {
  }

  lemma ValueOfMark(v: string)
    requires NoDollar(v) && '"' !in v
    ensures MarkedValue(MARK + (v + "\"")) == v
  {
    MarkIsKey();
    ReplaceHead(MARK, v + "\"");
    DropQuotes(v);
  }

  lemma OneRound(s: string, m: string)
    requires FindMarks(s) == [m]
    ensures EncodedText(s) == ReplaceAll(s, MARK + MarkedValue(m), Encode(MarkedValue(m)))
  {
    assert [m][..0] == [];
    assert EncodeRounds(s, [m][..0]) == s;
  }
}
