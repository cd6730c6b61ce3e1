/**
 * Secret templates through `adjust_params`: the path of a credential from its template to the object.
 *
 * A template is a list of lines. A data line holds a marked value, indented `"key": "$base64-<value>"`, as
 * in catalogData; the other lines (kind, name, labels) are text.
 */
module SecretTemplates {
  import opened Text
  import opened Decimal
  import opened Pieces
  import opened Scan
  import opened Stages
  import opened Base64
  import opened Blueprint
  import opened Markers

  /** Text, a data line with a marked value, or one whose value stands as it is, such as an empty one. */
  datatype Line =
    | Other(text: string)
    | Datum(indent: string, key: string, value: string, tail: string)
    | Bare(indent: string, key: string, value: string, tail: string)

  function Head(indent: string, key: string): string {
    indent + ("\"" + key + "\": \"")
  }

  function Body(l: Line, marker: string): string {
    match l
    case Other(t) => t
    case Datum(indent, k, v, tail) => Head(indent, k) + (marker + (v + ("\"" + tail)))
    case Bare(indent, k, v, tail) => Head(indent, k) + (v + ("\"" + tail))
  }

  /** The text of the lines, with `marker` before each data value. */
  function Render(ls: seq<Line>, marker: string): string {
    if ls == [] then "" else Body(ls[0], marker) + ("\n" + Render(ls[1..], marker))
  }

  function Fill(ls: seq<Line>, val: map<string, string>): (r: seq<Line>)
    ensures |r| == |ls|
  {
    if ls == [] then [] else [FillLine(ls[0], val)] + Fill(ls[1..], val)
  }

  function FillLine(l: Line, val: map<string, string>): Line {
    match l
    case Other(t) => Other(Expand(PARAMS, t, val))
    case Datum(indent, k, v, tail) => Datum(indent, k, Expand(PARAMS, v, val), tail)
    case Bare(indent, k, v, tail) => Bare(indent, k, Expand(PARAMS, v, val), tail)
  }

  function Code(ls: seq<Line>): (r: seq<Line>)
    ensures |r| == |ls|
  {
    if ls == [] then [] else [CodeLine(ls[0])] + Code(ls[1..])
  }

  function CodeLine(l: Line): Line {
    match l
    case Datum(indent, k, v, tail) => Datum(indent, k, Encode(v), tail)
    case Other(_) => l
    case Bare(_, _, _, _) => l
  }

  /** Around a data value there are no placeholders. */
  predicate PlainFrame(l: Line) {
    !l.Other? ==> NoDollar(l.indent) && NoDollar(l.key) && NoDollar(l.tail)
  }

  predicate PlainLine(l: Line) {
    match l
    case Other(t) => NoDollar(t)
    case Datum(indent, k, v, tail) =>
      && NoDollar(indent) && NoDollar(k) && NoDollar(tail) && '"' !in tail && '\n' !in tail
      && v != "" && forall i :: 0 <= i < |v| ==> Quoted.Has(v[i])
    case Bare(indent, k, v, tail) => NoDollar(indent) && NoDollar(k) && NoDollar(v) && NoDollar(tail)
  }

  predicate PlainLines(ls: seq<Line>) {
    forall l :: l in ls ==> PlainLine(l)
  }

  // ---------------------------------------------------------------- the parameters, line by line

  /** A character in no key separates the expansions on its sides. */
  lemma {:induction false} ExpandStopsAt(keys: seq<string>, a: string, c: char, b: string, val: map<string, string>)
    requires Lacks(keys, c) && c != '$' && AllKeys(keys)
    ensures Expand(OneOf(keys), a + ([c] + b), val) ==
            Expand(OneOf(keys), a, val) + ([c] + Expand(OneOf(keys), b, val))
  {
    var pat, x := OneOf(keys), [c] + b;
    if a == "" {
      assert a + x == x && x[1..] == b;
      NoMatchWithoutDollar(pat, x);
    } else {
      KeyStopsAt(keys, a, c, b);
      var m := Step(pat, a);
      CutConcat(a, x, m);
      ExpandStopsAt(keys, a[m..], c, b, val);
      ExpandStep(pat, a, val);
      ExpandStep(pat, a + x, val);
      ConcatAssoc(Shown(pat, a, val), Expand(pat, a[m..], val), [c] + Expand(pat, b, val));
    }
  }

  /** Text before, at and after the marker of a data line. */
  lemma ExpandMark(x: string, val: map<string, string>)
    ensures Expand(PARAMS, MARK + x, val) == MARK + Expand(PARAMS, x, val)
  {
    KeysArePrefixFree();
    MarkIsNoKey(x);
    SkipMatch(PARAMS, MARK + x, |MARK|, val);
    assert (MARK + x)[..|MARK|] == MARK && (MARK + x)[|MARK|..] == x;
  }

  lemma {:induction false} OtherSecondChar(keys: seq<string>, s: string)
    requires |s| > 1 && forall i :: 0 <= i < |keys| ==> |keys[i]| > 1 && keys[i][1] != s[1]
    ensures FirstKey(keys, s) == 0
  {
    if keys != [] {
      assert forall i :: 0 <= i < |keys| - 1 ==> keys[1..][i] == keys[i+1];
      OtherSecondChar(keys[1..], s);
    }
  }

  /** No key begins like the marker. */
  lemma MarkIsNoKey(x: string)
    ensures MatchLen(PARAMS, MARK + x) == 0 && IsKey(MARK)
  {
    MarkIsKey();
    var starts := KeysStarts();
    assert MARK[1] == 'b';
    forall i | 0 <= i < |KEYS| ensures |KEYS[i]| > 1 && KEYS[i][1] != 'b' {
      assert (KEYS[i][1], KEYS[i][2]) in starts;
    }
    OtherSecondChar(KEYS, MARK + x);
  }

  lemma {:induction false} FillRenders(ls: seq<Line>, val: map<string, string>)
    requires forall l :: l in ls ==> PlainFrame(l)
    ensures Expand(PARAMS, Render(ls, MARK), val) == Render(Fill(ls, val), MARK)
  {
    if ls != [] {
      KeysLack('\n');
      FillRenders(ls[1..], val);
      ExpandStopsAt(KEYS, Body(ls[0], MARK), '\n', Render(ls[1..], MARK), val);
      FillBody(ls[0], val);
    }
  }

  lemma FillBody(l: Line, val: map<string, string>)
    requires PlainFrame(l)
    ensures Expand(PARAMS, Body(l, MARK), val) == Body(FillLine(l, val), MARK)
  {
    if !l.Other? {
      KeysArePrefixFree();
      HeadIsPlain(l.indent, l.key);
      var quoted := l.value + ("\"" + l.tail);
      FillValue(l.value, l.tail, val);
      if l.Datum? {
        ExpandPlain(PARAMS, Head(l.indent, l.key), MARK + quoted, val);
        ExpandMark(quoted, val);
      } else {
        ExpandPlain(PARAMS, Head(l.indent, l.key), quoted, val);
      }
    }
  }

  /** A value and what stands behind its quote. */
  lemma FillValue(value: string, tail: string, val: map<string, string>)
    requires NoDollar(tail)
    ensures Expand(PARAMS, value + ("\"" + tail), val) == Expand(PARAMS, value, val) + ("\"" + tail)
  {
    KeysArePrefixFree();
    KeysLack('"');
    ExpandStopsAt(KEYS, value, '"', tail, val);
    ExpandPlain(PARAMS, tail, "", val);
    assert tail + "" == tail;
  }

  // ---------------------------------------------------------------- the encoding, line by line

  function MarkTokens(ls: seq<Line>): seq<string> {
    if ls == [] then []
    else (if ls[0].Datum? then [MARK + ls[0].value] else []) + MarkTokens(ls[1..])
  }

  /** What follows a line: a line break and the other lines. */
  function Rest(ls: seq<Line>): string
    requires ls != []
  {
    "\n" + Render(ls[1..], MARK)
  }

  lemma {:induction false} ClosedPlain(p: string, t: string)
    requires NoDollar(p) && ClosedMarks(t)
    ensures ClosedMarks(p + t)
  {
    if p == "" {
      assert p + t == t;
    } else {
      MarkIsKey();
      assert (p + t)[0] == p[0] && (p + t)[1..] == p[1..] + t;
      ClosedPlain(p[1..], t);
    }
  }

  lemma {:induction false} SpanOfValue(v: string, t: string)
    requires t != "" && t[0] == '"' && forall i :: 0 <= i < |v| ==> Quoted.Has(v[i])
    ensures Span(Quoted, v + t) == |v|
  {
    if v == "" {
      assert v + t == t;
    } else {
      assert (v + t)[1..] == v[1..] + t;
      SpanOfValue(v[1..], t);
    }
  }

  /** The marker of a data line matches with exactly its value. */
  lemma MarkOfDatum(v: string, t: string)
    requires v != "" && t != "" && t[0] == '"' && forall i :: 0 <= i < |v| ==> Quoted.Has(v[i])
    ensures var s := MARK + (v + t);
            MatchLen(MARKS, s) == |MARK + v| && s[..|MARK + v|] == MARK + v && s[|MARK + v|..] == t
  {
    var s := MARK + (v + t);
    assert s[|MARK|..] == v + t;
    SpanOfValue(v, t);
  }

  lemma {:induction false} NoQuoteBefore(p: string, t: string)
    requires '"' !in p && '\n' !in p
    ensures LastQuote(p + ("\n" + t)).None?
  {
    if p == "" {
      assert p + ("\n" + t) == "\n" + t;
    } else {
      assert (p + ("\n" + t))[0] == p[0] && (p + ("\n" + t))[1..] == p[1..] + ("\n" + t);
      NoQuoteBefore(p[1..], t);
    }
  }

  /** A data line from its marker on. */
  function Marked(l: Line, t: string): string
    requires l.Datum?
  {
    MARK + (l.value + ("\"" + (l.tail + t)))
  }

  lemma DatumLine(ls: seq<Line>)
    requires ls != [] && ls[0].Datum?
    ensures Render(ls, MARK) == Head(ls[0].indent, ls[0].key) + Marked(ls[0], Rest(ls))
  {
    var l, t := ls[0], Rest(ls);
    assert (l.value + ("\"" + l.tail)) + t == l.value + ("\"" + (l.tail + t));
    assert (MARK + (l.value + ("\"" + l.tail))) + t == MARK + ((l.value + ("\"" + l.tail)) + t);
    ConcatAssoc(Head(l.indent, l.key), MARK + (l.value + ("\"" + l.tail)), t);
  }

  lemma HeadIsPlain(indent: string, k: string)
    requires NoDollar(indent) && NoDollar(k)
    ensures NoDollar(Head(indent, k))
  {
  }

  lemma MarkedIsClosed(l: Line, t: string)
    requires l.Datum? && PlainLine(l) && t != "" && t[0] == '\n' && ClosedMarks(t)
    ensures ClosedMarks(Marked(l, t))
  {
    var q := "\"" + (l.tail + t);
    MarkIsKey();
    MarkOfDatum(l.value, q);
    NoQuoteBefore(l.tail, t[1..]);
    assert t == "\n" + t[1..];
    var s := Marked(l, t);
    DropMore(s, |MARK + l.value|, q);
    ClosedAfterMark(l, t);
  }

  lemma DropMore(s: string, n: nat, q: string)
    requires n <= |s| && s[n..] == q && q != ""
    ensures n < |s| && s[n] == q[0] && s[n+1..] == q[1..]
  {
    assert s[n] == s[n..][0];
    assert s[n..][1..] == s[n+1..];
  }

  lemma ClosedAfterMark(l: Line, t: string)
    requires l.Datum? && PlainLine(l) && ClosedMarks(t)
    ensures ClosedMarks(Marked(l, t)[1..])
  {
    var q := "\"" + (l.tail + t);
    MarkIsKey();
    ClosedPlain("\"" + l.tail, t);
    ConcatAssoc("\"", l.tail, t);
    PlainValue(l.value);
    ClosedPlain(l.value, q);
    ClosedPlain(MARK[1..], l.value + q);
    MarkedTail(l, t);
  }

  lemma PlainValue(v: string)
    requires forall i :: 0 <= i < |v| ==> Quoted.Has(v[i])
    ensures NoDollar(v)
  {
  }

  /** The closing quote ends the marker's placeholder: nothing can come to extend it. */
  lemma MarkedIsFixed(l: Line, t: string)
    requires l.Datum? && PlainLine(l)
    ensures !Extensible(MARKS, HeadSegment(Marked(l, t)))
  {
    var closed := MARK + (l.value + "\"");
    MarkIsKey();
    PlainValue(l.value);
    assert Marked(l, t) == closed + (l.tail + t);
    assert IsKey(closed) by { assert closed[1..] == MARK[1..] + (l.value + "\""); }
    SegmentOfConcat(closed, l.tail + t);
    assert closed[|closed|-1] == '"' && !Quoted.Has('"');
    var seg := HeadSegment(Marked(l, t));
    if Extensible(MARKS, seg) {
      ExtensibleShrinks(MARKS, closed, seg);
    }
  }

  lemma MarkedTail(l: Line, t: string)
    requires l.Datum?
    ensures Marked(l, t) != "" && Marked(l, t)[1..] == MARK[1..] + (l.value + ("\"" + (l.tail + t)))
  {
  }

  lemma MarkedIsSeparated(l: Line, t: string)
    requires l.Datum? && PlainLine(l) && Separated(MARKS, t)
    ensures Separated(MARKS, Marked(l, t))
  {
    var q := "\"" + (l.tail + t);
    MarkIsKey();
    PlainValue(l.value);
    SeparatedPlain(MARKS, "\"" + l.tail, t);
    ConcatAssoc("\"", l.tail, t);
    SeparatedPlain(MARKS, l.value, q);
    SeparatedPlain(MARKS, MARK[1..], l.value + q);
    MarkedTail(l, t);
    MarkedIsFixed(l, t);
  }

  lemma TextIsPlain(l: Line)
    requires !l.Datum? && PlainLine(l)
    ensures NoDollar(Body(l, MARK)) && Body(CodeLine(l), "") == Body(l, MARK)
  {
    if l.Bare? {
      HeadIsPlain(l.indent, l.key);
    }
  }

  /** The lines' text meets the conditions of the encoding, and its markers are those of the data lines. */
  lemma {:induction false} LinesAreClosed(ls: seq<Line>)
    requires PlainLines(ls)
    ensures ClosedMarks(Render(ls, MARK)) && Separated(MARKS, Render(ls, MARK))
  {
    if ls != [] {
      var l, t := ls[0], Rest(ls);
      assert PlainLine(l) by { assert l in ls; }
      LinesAreClosed(ls[1..]);
      MarkIsKey();
      assert t[1..] == Render(ls[1..], MARK);
      ClosedPlain("\n", Render(ls[1..], MARK));
      SeparatedPlain(MARKS, "\n", Render(ls[1..], MARK));
      if l.Datum? {
        DatumLine(ls);
        HeadIsPlain(l.indent, l.key);
        MarkedIsClosed(l, t);
        MarkedIsSeparated(l, t);
        ClosedPlain(Head(l.indent, l.key), Marked(l, t));
        SeparatedPlain(MARKS, Head(l.indent, l.key), Marked(l, t));
      } else {
        TextIsPlain(l);
        ClosedPlain(Body(l, MARK), t);
        SeparatedPlain(MARKS, Body(l, MARK), t);
      }
    }
  }

  lemma {:induction false} LinesCode(ls: seq<Line>, val: map<string, string>)
    requires PlainLines(ls)
    requires forall t :: t in MarkTokens(ls) ==> Lookup(val, t) == Encode(Payload(t))
    ensures FindAll(MARKS, Render(ls, MARK)) == MarkTokens(ls)
    ensures Expand(MARKS, Render(ls, MARK), val) == Render(Code(ls), "")
  {
    if ls != [] {
      var l, t := ls[0], Rest(ls);
      assert PlainLine(l) by { assert l in ls; }
      MarkIsKey();
      LinesCode(ls[1..], val);
      FindAllPlain(MARKS, "\n", Render(ls[1..], MARK));
      ExpandPlain(MARKS, "\n", Render(ls[1..], MARK), val);
      if l.Datum? {
        DatumLine(ls);
        HeadIsPlain(l.indent, l.key);
        FindAllPlain(MARKS, Head(l.indent, l.key), Marked(l, t));
        ExpandPlain(MARKS, Head(l.indent, l.key), Marked(l, t), val);
        assert MARK + l.value in MarkTokens(ls);
        MarkedCode(l, t, val);
        CodedLine(ls, Expand(MARKS, t, val));
      } else {
        TextIsPlain(l);
        FindAllPlain(MARKS, Body(l, MARK), t);
        ExpandPlain(MARKS, Body(l, MARK), t, val);
      }
    }
  }

  lemma MarkedCode(l: Line, t: string, val: map<string, string>)
    requires l.Datum? && PlainLine(l) && Lookup(val, MARK + l.value) == Encode(Payload(MARK + l.value))
    ensures FindAll(MARKS, Marked(l, t)) == [MARK + l.value] + FindAll(MARKS, t)
    ensures Expand(MARKS, Marked(l, t), val) == Encode(l.value) + ("\"" + (l.tail + Expand(MARKS, t, val)))
  {
    var q := "\"" + (l.tail + t);
    MarkIsKey();
    MarkOfDatum(l.value, q);
    assert Payload(MARK + l.value) == l.value;
    TailCode(l.tail, t, val);
  }

  lemma TailCode(tail: string, t: string, val: map<string, string>)
    requires NoDollar(tail)
    ensures FindAll(MARKS, "\"" + (tail + t)) == FindAll(MARKS, t)
    ensures Expand(MARKS, "\"" + (tail + t), val) == "\"" + (tail + Expand(MARKS, t, val))
  {
    MarkIsKey();
    ConcatAssoc("\"", tail, t);
    FindAllPlain(MARKS, "\"" + tail, t);
    ExpandPlain(MARKS, "\"" + tail, t, val);
    ConcatAssoc("\"", tail, Expand(MARKS, t, val));
  }

  lemma CodedLine(ls: seq<Line>, x: string)
    requires ls != [] && ls[0].Datum? && x == "\n" + Render(Code(ls[1..]), "")
    ensures Head(ls[0].indent, ls[0].key) + (Encode(ls[0].value) + ("\"" + (ls[0].tail + x))) == Render(Code(ls), "")
  {
    var l := ls[0];
    var c := Encode(l.value);
    NestConcat(Head(l.indent, l.key), c, l.tail, x);
    assert Body(CodeLine(l), "") ==
        Head(l.indent, l.key) + (c + ("\"" + l.tail)) by { assert "" + (c + ("\"" + l.tail)) == c + ("\"" + l.tail); }
  }

  lemma NestConcat(h: string, c: string, tail: string, x: string)
    ensures (h + (c + ("\"" + tail))) + x == h + (c + ("\"" + (tail + x)))
  {
  }

  /**
   * A secret template through `adjust_params`: the keys of all lines are filled in, and every data value is
   * the base64 of its filled-in text; in the values, order and line structure nothing else changes.
   */
  lemma SecretMeaning(ls: seq<Line>, p: Params)
    requires Drawn(p) && PlainParams(p) && |p.serviceId| >= 15
    requires forall l :: l in ls ==> PlainFrame(l)
    requires Separated(PARAMS, Render(ls, MARK))
    requires PlainLines(Fill(ls, RequestValues(p))) && ShorterLast(MarkTokens(Fill(ls, RequestValues(p))))
    ensures Adjusted(Render(ls, "$base64-"), p) == Some(Render(Code(Fill(ls, RequestValues(p))), ""))
  {
    var filled := Fill(ls, RequestValues(p));
    ParamsMeaning(Render(ls, MARK), p);
    FillRenders(ls, RequestValues(p));
    LinesAreClosed(filled);
    LinesCode(filled, CodedValues(MarkTokens(filled)));
    MarksMeaning(Render(filled, MARK));
  }

  // ---------------------------------------------------------------- reading the lines back

  /** The same kind of line with the same key between the same texts; the values may differ. */
  predicate SameFrame(a: Line, b: Line) {
    match a
    case Other(_) => b.Other?
    case Datum(indent, k, _, tail) => b.Datum? && b.indent == indent && b.key == k && b.tail == tail
    case Bare(indent, k, _, tail) => b.Bare? && b.indent == indent && b.key == k && b.tail == tail
  }

  predicate SameFrames(a: seq<Line>, b: seq<Line>) {
    |a| == |b| && forall i :: 0 <= i < |a| ==> SameFrame(a[i], b[i])
  }

  predicate OneLine(l: Line) {
    '\n' !in Body(l, "")
  }

  predicate OneLines(ls: seq<Line>) {
    forall i :: 0 <= i < |ls| ==> OneLine(ls[i])
  }

  lemma {:induction false} FirstBreak(p: string, x: string, q: string, y: string)
    requires '\n' !in p && '\n' !in q && p + ("\n" + x) == q + ("\n" + y)
    ensures p == q && x == y
  {
    BreakHead(p, x);
    BreakHead(q, y);
    if p != "" && q != "" {
      FirstBreak(p[1..], x, q[1..], y);
    }
  }

  lemma BreakHead(p: string, x: string)
    requires '\n' !in p
    ensures var s := p + ("\n" + x);
            && (s[0] == '\n' <==> p == "")
            && (p != "" ==> s[0] == p[0] && s[1..] == p[1..] + ("\n" + x))
            && (p == "" ==> s[1..] == x)
  {
    if p == "" {
      assert p + ("\n" + x) == "\n" + x;
    }
  }

  lemma BodyInjective(a: Line, b: Line)
    requires SameFrame(a, b) && Body(a, "") == Body(b, "")
    ensures a == b
  {
    if !a.Other? {
      var h, e := Head(a.indent, a.key), "\"" + a.tail;
      assert "" + (a.value + e) == a.value + e && "" + (b.value + e) == b.value + e;
      CancelFrame(h, a.value, b.value, e);
    }
  }

  lemma CancelFrame(h: string, v: string, w: string, e: string)
    requires h + (v + e) == h + (w + e)
    ensures v == w
  {
    assert (h + (v + e))[|h|..] == v + e && (h + (w + e))[|h|..] == w + e;
    assert (v + e)[..|v|] == v && (w + e)[..|w|] == w;
  }

  /** Lines with given frames are read back from their text in only one way. */
  lemma {:induction false} RenderInjective(a: seq<Line>, b: seq<Line>)
    requires SameFrames(a, b) && OneLines(a) && OneLines(b) && Render(a, "") == Render(b, "")
    ensures a == b
  {
    if a != [] {
      assert SameFrame(a[0], b[0]) && OneLine(a[0]) && OneLine(b[0]);
      FirstBreak(Body(a[0], ""), Render(a[1..], ""), Body(b[0], ""), Render(b[1..], ""));
      BodyInjective(a[0], b[0]);
      RenderInjective(a[1..], b[1..]);
      assert a == [a[0]] + a[1..] && b == [b[0]] + b[1..];
    }
  }

  lemma {:induction false} FillFrames(ls: seq<Line>, val: map<string, string>)
    ensures SameFrames(Code(Fill(ls, val)), ls)
  {
    if ls != [] {
      FillFrames(ls[1..], val);
      var c := Code(Fill(ls, val));
      assert c[1..] == Code(Fill(ls[1..], val));
      assert forall i :: 1 <= i < |ls| ==> c[i] == c[1..][i-1] && ls[i] == ls[1..][i-1];
    }
  }

  lemma {:induction false} CodeOneLines(ls: seq<Line>)
    requires OneLines(ls)
    ensures OneLines(Code(ls))
  {
    if ls != [] {
      assert OneLine(ls[0]);
      CodeOneLines(ls[1..]);
      CodeOneLine(ls[0]);
      var c := Code(ls);
      assert c[1..] == Code(ls[1..]);
      assert forall i :: 1 <= i < |ls| ==> c[i] == c[1..][i-1];
    }
  }

  lemma CodeOneLine(l: Line)
    requires OneLine(l)
    ensures OneLine(CodeLine(l))
  {
    if l.Datum? {
      CodeIsPlain(l.value);
      var h, e := Head(l.indent, l.key), "\"" + l.tail;
      assert Body(l, "") == h + ("" + (l.value + e)) && Body(CodeLine(l), "") == h + ("" + (Encode(l.value) + e));
      assert "" + (l.value + e) == l.value + e && "" + (Encode(l.value) + e) == Encode(l.value) + e;
      NoBreakParts(h, l.value, e);
    }
  }

  lemma NoBreakParts(h: string, v: string, e: string)
    requires '\n' !in h + (v + e)
    ensures '\n' !in h && '\n' !in v && '\n' !in e
  {
    var s := h + (v + e);
    assert forall i :: 0 <= i < |h| ==> h[i] == s[i];
    assert forall i :: 0 <= i < |v| ==> v[i] == s[|h|+i];
    assert forall i :: 0 <= i < |e| ==> e[i] == s[|h|+|v|+i];
  }
}
