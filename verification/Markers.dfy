/** What `encodeByte64ToString` does to a text whose markers are closed on their own lines. */
module Markers {
  import opened Text
  import opened Decimal
  import opened Pieces
  import opened Scan
  import opened Base64
  import opened Blueprint

  /** A marker with its value, up to the closing quote. */
  const MARKS := Repeat(MARK, Quoted)

  /** The marker's value. */
  function Payload(t: string): string {
    if |t| >= |MARK| then t[|MARK|..] else ""
  }

  function CodedValues(toks: seq<string>): map<string, string> {
    map t | t in toks :: Encode(Payload(t))
  }

  /** The length of a marker with its value, which may be empty. */
  function MarkedLen(s: string): (n: nat)
    ensures n <= |s| && (n > 0 <==> MARK <= s)
  {
    if MARK <= s then |MARK| + Span(Quoted, s[|MARK|..]) else 0
  }

  /** Every marker's value is closed by the only quote that follows on its line. */
  predicate Closed(s: string) {
    s == "" ||
    (&& (MARK <= s ==>
           var n := MarkedLen(s);
           n < |s| && s[n] == '"' && LastQuote(s[n+1..]).None?)
     && Closed(s[1..]))
  }

  /** Every marker's value ends with a quote, on its own line. */
  predicate Ended(s: string) {
    s == "" || ((MARK <= s ==> MarkedLen(s) < |s| && s[MarkedLen(s)] == '"') && Ended(s[1..]))
  }

  lemma {:induction false} ClosedIsEnded(s: string)
    requires Closed(s)
    ensures Ended(s)
  {
    if s != "" {
      ClosedIsEnded(s[1..]);
    }
  }

  lemma {:induction false} EndedDrop(s: string, n: nat)
    requires n <= |s| && Ended(s)
    ensures Ended(s[n..])
  {
    if n > 0 {
      EndedDrop(s[1..], n - 1);
      assert s[1..][n-1..] == s[n..];
    }
  }

  /** The markers with their values, from left to right. */
  function MarkedSpans(s: string): seq<string> {
    if s == "" then []
    else if MarkedLen(s) > 0 then [s[..MarkedLen(s)]] + MarkedSpans(s[MarkedLen(s)..])
    else MarkedSpans(s[1..])
  }

  /** No marker's value is empty. */
  predicate Full(s: string) {
    s == "" || ((MARK <= s ==> MatchLen(MARKS, s) > 0) && Full(s[1..]))
  }

  /** Every marker has a non-empty value, closed by the only quote that follows on its line. */
  predicate ClosedMarks(s: string) {
    Closed(s) && Full(s)
  }

  lemma MarkIsKey()
    ensures ValidPattern(MARKS) && IsKey(MARK) && '"' !in MARK
  {
  }

  lemma {:induction false} ClosedDrop(s: string, n: nat)
    requires n <= |s|
    ensures Closed(s) ==> Closed(s[n..])
    ensures Full(s) ==> Full(s[n..])
  {
    if n > 0 {
      ClosedDrop(s[1..], n - 1);
      assert s[1..][n-1..] == s[n..];
    }
  }

  /** The last quote of a line is the one that closes the value. */
  lemma {:induction false} QuoteAfterValue(v: string, rest: string)
    requires '\n' !in v && LastQuote(rest).None?
    ensures LastQuote(v + "\"" + rest) == Some(|v|)
  {
    if v == "" {
      assert v + "\"" + rest == "\"" + rest;
      assert ("\"" + rest)[1..] == rest;
    } else {
      assert (v + "\"" + rest)[1..] == v[1..] + "\"" + rest;
      QuoteAfterValue(v[1..], rest);
    }
  }

  lemma MarkLenClosed(s: string)
    requires Closed(s)
    ensures MarkLen(s) == if MarkedLen(s) > 0 then MarkedLen(s) + 1 else 0
    ensures MarkedLen(s) > 0 ==> MarkedLen(s) < |s| && s[MarkedLen(s)] == '"'
  {
    if MARK <= s {
      var n := MarkedLen(s);
      DropTwice(s, |MARK|, n - |MARK|);
      ValueThenQuote(s[|MARK|..], n - |MARK|);
    }
  }

  lemma DropTwice(s: string, h: nat, n: nat)
    requires h + n < |s|
    ensures s[h..][n+1..] == s[h+n+1..] && s[h..][n] == s[h+n]
  {
  }

  lemma ValueThenQuote(t: string, n: nat)
    requires n < |t| && t[n] == '"' && LastQuote(t[n+1..]).None?
    requires forall i :: 0 <= i < n ==> Quoted.Has(t[i])
    ensures LastQuote(t) == Some(n)
  {
    QuotedOnLine(t, n);
    QuoteAfterValue(t[..n], t[n+1..]);
    SplitAtQuote(t, n);
  }

  lemma QuotedOnLine(t: string, n: nat)
    requires n <= |t| && forall i :: 0 <= i < n ==> Quoted.Has(t[i])
    ensures '\n' !in t[..n]
  {
  }

  lemma SplitAtQuote(t: string, n: nat)
    requires n < |t| && t[n] == '"'
    ensures t == t[..n] + "\"" + t[n+1..]
  {
  }

  function WithQuotes(toks: seq<string>): seq<string> {
    if toks == [] then [] else [toks[0] + "\""] + WithQuotes(toks[1..])
  }

  /** The greedy expression finds the markers, each with its closing quote. */
  lemma {:induction false} MarksFound(s: string)
    requires Closed(s)
    ensures FindMarks(s) == WithQuotes(MarkedSpans(s))
  {
    if s != "" {
      MarkLenClosed(s);
      var n := MarkedLen(s);
      if n > 0 {
        ClosedDrop(s, n + 1);
        MarksFound(s[n+1..]);
        MarksAfterQuote(s, n);
        assert s[..n+1] == s[..n] + "\"";
      } else {
        ClosedDrop(s, 1);
        MarksFound(s[1..]);
      }
    }
  }

  lemma MarksAfterQuote(s: string, n: nat)
    requires n == MarkedLen(s) && 0 < n < |s| && s[n] == '"'
    ensures MarkedSpans(s) == [s[..n]] + MarkedSpans(s[n+1..])
  {
    assert MARK[0] == '$' && s[n..][0] == '"';
    assert s[n..][1..] == s[n+1..];
  }

  /** Markers whose values are not empty are found by the pattern of the markers. */
  lemma {:induction false} FullMarks(s: string)
    requires Full(s)
    ensures MarkedSpans(s) == FindAll(MARKS, s) && MarkedLen(s) == MatchLen(MARKS, s)
  {
    if s != "" {
      FullMarks(s[1..]);
      var n := MarkedLen(s);
      if n > 0 {
        ClosedDrop(s, n);
        FullMarks(s[n..]);
      }
    }
  }

  lemma {:induction false} DropQuotes(s: string)
    requires '"' !in s
    ensures ReplaceAll(s + "\"", "\"", "") == s
  {
    if s == "" {
      assert "" + "\"" == "\"";
      assert "\""[1..] == "";
    } else {
      assert (s + "\"")[0] == s[0] && (s + "\"")[1..] == s[1..] + "\"";
      DropQuotes(s[1..]);
      assert !("\"" <= s + "\"") by { assert "\""[0] == '"'; }
    }
  }

  lemma TokenShape(s: string, t: string)
    requires t in FindAll(MARKS, s)
    ensures t == MARK + Payload(t) && NoDollar(Payload(t)) && '"' !in Payload(t) && IsKey(t)
    ensures MarkedValue(t + "\"") == Payload(t)
  {
    MarkIsKey();
    TokenSplit(MARKS, s, t, '"');
    FindAllIsTokens(MARKS, s);
    var v := Payload(t);
    assert forall i :: 0 <= i < |v| ==> v[i] == t[|MARK|+i];
    assert t + "\"" == MARK + (v + "\"");
    ReplaceHead(MARK, v + "\"");
    DropQuotes(v);
  }

  lemma {:induction false} RoundsAreChain(s: string, toks: seq<string>, val: map<string, string>)
    requires AllKeys(toks)
    requires forall t :: t in toks ==>
               t == MARK + Payload(t) && MarkedValue(t + "\"") == Payload(t) && Lookup(val, t) == Encode(Payload(t))
    ensures EncodeRounds(s, WithQuotes(toks)) == Chain(s, toks, val)
  {
    if toks != [] {
      var init, last := toks[..|toks|-1], toks[|toks|-1];
      WithQuotesSnoc(toks);
      RoundsAreChain(s, init, val);
      assert last in toks;
    }
  }

  lemma {:induction false} WithQuotesSnoc(toks: seq<string>)
    requires toks != []
    ensures WithQuotes(toks) == WithQuotes(toks[..|toks|-1]) + [toks[|toks|-1] + "\""]
  {
    if |toks| > 1 {
      WithQuotesSnoc(toks[1..]);
      assert toks[1..][..|toks|-2] == toks[..|toks|-1][1..];
    }
  }

  lemma CodedIsPlain(toks: seq<string>)
    ensures PlainValues(CodedValues(toks))
  {
    forall t | t in CodedValues(toks) ensures NoDollar(CodedValues(toks)[t]) {
      CodeIsPlain(Payload(t));
    }
  }

  lemma CodeIsPlain(v: string)
    ensures NoDollar(Encode(v)) && '"' !in Encode(v) && '\n' !in Encode(v)
  {
    assert Sextet('$').None? && Sextet('"').None? && Sextet('\n').None?;
  }

  /** No marker is left where the scan found none: nothing has come to complete one. */
  lemma {:induction false} NoMarkLeft(s: string, done: set<string>, val: map<string, string>)
    requires ClosedMarks(s) && Separated(MARKS, s) && PlainValues(val)
    requires forall t :: t in FindAll(MARKS, s) ==> t in done
    ensures FindMarks(Fill(Parse(MARKS, s), done, val)) == []
  {
    if s != "" {
      var ps, m := Parse(MARKS, s), Step(MARKS, s);
      MarkIsKey();
      ClosedDrop(s, m);
      SeparatedDrop(MARKS, s, m);
      forall t | t in FindAll(MARKS, s[m..]) ensures t in done { assert t in FindAll(MARKS, s); }
      NoMarkLeft(s[m..], done, val);
      assert ps[1..] == Parse(MARKS, s[m..]);
      var rest := Fill(ps[1..], done, val);
      if MatchLen(MARKS, s) > 0 {
        assert s[..m] in FindAll(MARKS, s);
        NoMarkInPlain(Lookup(val, s[..m]), rest);
      } else {
        NoMarkAt(s, done, val);
        assert Fill(ps, done, val)[1..] == rest;
      }
    }
  }

  lemma NoMarkAt(s: string, done: set<string>, val: map<string, string>)
    requires ClosedMarks(s) && Separated(MARKS, s) && PlainValues(val)
    requires s != "" && MatchLen(MARKS, s) == 0
    ensures MarkLen(Fill(Parse(MARKS, s), done, val)) == 0
  {
    var ps := Parse(MARKS, s);
    MarkIsKey();
    ParseRenders(MARKS, s);
    if s[0] == '$' {
      ParseSegment(MARKS, s);
      if MARK <= Fill(ps, done, val) {
        LiveMatchIsCapture(ps, done, val, MARK);
        if MARK <= Segment(ps) {
          SegmentOfRender(ps, MARK);
          assert false;
        }
      }
    }
  }

  lemma {:induction false} NoMarkInPlain(p: string, t: string)
    requires NoDollar(p)
    ensures FindMarks(p + t) == FindMarks(t)
  {
    if p == "" {
      assert p + t == t;
    } else {
      MarkIsKey();
      assert (p + t)[0] == p[0] && (p + t)[1..] == p[1..] + t;
      NoMarkInPlain(p[1..], t);
    }
  }

  /**
   * The meaning of the encoding, when every marker is closed by the only later quote of its line and no
   * marked value is a proper prefix of a later one: exactly the marked spans are replaced, by the base64 of
   * their values; no marker is left, so that a second run changes nothing; and each code decodes to its value.
   */
  lemma MarksMeaning(s: string)
    requires ClosedMarks(s) && Separated(MARKS, s) && ShorterLast(FindAll(MARKS, s))
    ensures EncodedText(s) == Expand(MARKS, s, CodedValues(FindAll(MARKS, s)))
    ensures FindMarks(EncodedText(s)) == [] && EncodedText(EncodedText(s)) == EncodedText(s)
    ensures IsBytes(s) ==>
              forall t :: t in FindAll(MARKS, s) ==> Decode(CodedValues(FindAll(MARKS, s))[t]) == Some(Payload(t))
  {
    var toks := FindAll(MARKS, s);
    var val := CodedValues(toks);
    MarkIsKey();
    FullMarks(s);
    MarksFound(s);
    forall t | t in toks ensures t == MARK + Payload(t) && MarkedValue(t + "\"") == Payload(t) {
      TokenShape(s, t);
    }
    FindAllIsTokens(MARKS, s);
    ParseRenders(MARKS, s);
    CodedIsPlain(toks);
    RoundsAreChain(s, toks, val);
    SeparatedIsSafe(MARKS, s);
    ChainIsFill(Parse(MARKS, s), toks, val);
    ExpandIsFill(MARKS, s, Elems(toks), val);
    NoMarkLeft(s, Elems(toks), val);
    if IsBytes(s) {
      forall t | t in toks ensures Decode(val[t]) == Some(Payload(t)) {
        TokenBytes(s, t);
        DecodeOfEncode(Payload(t));
      }
    }
  }

  lemma {:induction false} TokenBytes(s: string, t: string)
    requires IsBytes(s) && t in FindAll(MARKS, s)
    ensures IsBytes(Payload(t))
  {
    var n := MatchLen(MARKS, s);
    if !(n > 0 && t == s[..n]) {
      TokenBytes(s[Step(MARKS, s)..], t);
    }
  }
}
