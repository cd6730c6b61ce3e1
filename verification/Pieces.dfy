/**
 * Simultaneous substitution, and when a chain of replace-alls performs it.
 *
 * A template is a list of characters and placeholders. The broker never parses its templates:
 * it runs one `strings.Replace` per placeholder over the text the previous one produced.
 */
module Pieces {
  import opened Text

  datatype Piece = Ch(c: char) | Tok(key: string)

  predicate WellFormed(ps: seq<Piece>) {
    forall p :: p in ps && p.Tok? ==> IsKey(p.key)
  }

  /** The text in which the placeholders in `done` carry their values and the others still stand. */
  function Fill(ps: seq<Piece>, done: set<string>, val: map<string, string>): string {
    if ps == [] then ""
    else Show(ps[0], done, val) + Fill(ps[1..], done, val)
  }

  function Show(p: Piece, done: set<string>, val: map<string, string>): string {
    match p
    case Ch(c) => [c]
    case Tok(k) => if k in done then Lookup(val, k) else k
  }

  lemma FillCons(p: Piece, ps: seq<Piece>, done: set<string>, val: map<string, string>)
    ensures Fill([p] + ps, done, val) == Show(p, done, val) + Fill(ps, done, val)
  {
    assert ([p] + ps)[1..] == ps;
  }

  /** The template text. */
  function Render(ps: seq<Piece>): string {
    Fill(ps, {}, map[])
  }

  function Tokens(ps: seq<Piece>): (toks: seq<string>)
    ensures forall t :: t in toks <==> Tok(t) in ps
  {
    if ps == [] then []
    else
      var rest := Tokens(ps[1..]);
      assert forall t :: Tok(t) in ps <==> ps[0] == Tok(t) || Tok(t) in ps[1..];
      if ps[0].Tok? then [ps[0].key] + rest else rest
  }

  predicate AllKeys(keys: seq<string>) {
    forall i :: 0 <= i < |keys| ==> IsKey(keys[i])
  }

  /** The character `x` occurs in none of the keys. */
  predicate Lacks(keys: seq<string>, x: char) {
    forall i :: 0 <= i < |keys| ==> x !in keys[i]
  }

  function Elems(keys: seq<string>): (r: set<string>) {
    set k | k in keys
  }

  predicate PlainValues(val: map<string, string>) {
    forall k :: k in val ==> NoDollar(val[k])
  }

  /** One replace-all per key, in order: what the broker's loops compute. */
  function Chain(s: string, keys: seq<string>, val: map<string, string>): string
    requires AllKeys(keys)
  {
    if keys == [] then s
    else ReplaceAll(Chain(s, keys[..|keys|-1], val), keys[|keys|-1], Lookup(val, keys[|keys|-1]))
  }

  lemma ChainSnoc(s: string, keys: seq<string>, i: nat, val: map<string, string>)
    requires AllKeys(keys) && i < |keys|
    ensures Chain(s, keys[..i+1], val) == ReplaceAll(Chain(s, keys[..i], val), keys[i], Lookup(val, keys[i]))
  {
    assert keys[..i+1][..i] == keys[..i];
  }

  /** The literal characters up to the next `$` or placeholder. */
  function Run(ps: seq<Piece>): (r: string)
    ensures NoDollar(r)
  {
    if ps != [] && ps[0].Ch? && ps[0].c != '$' then [ps[0].c] + Run(ps[1..]) else ""
  }

  function AfterRun(ps: seq<Piece>): (r: seq<Piece>)
    ensures |r| <= |ps| && (r != [] && r[0].Ch? ==> r[0].c == '$')
  {
    if ps != [] && ps[0].Ch? && ps[0].c != '$' then AfterRun(ps[1..]) else ps
  }

  /** A `$` still standing at the head of the list when the placeholders in `done` are replaced. */
  predicate Live(ps: seq<Piece>, done: set<string>) {
    ps != [] && match ps[0] case Ch(c) => c == '$' case Tok(k) => k !in done
  }

  /** The fixed text from a live `$` up to the next `$` or replaced placeholder. */
  function Segment(ps: seq<Piece>): string
    requires ps != []
  {
    (if ps[0].Ch? then [ps[0].c] else ps[0].key) + Run(ps[1..])
  }

  predicate ThenReplaced(ps: seq<Piece>, done: set<string>)
    requires ps != []
  {
    var q := AfterRun(ps[1..]);
    q != [] && q[0].Tok? && q[0].key in done
  }

  /** `a` is a prefix of `b` and shorter. */
  predicate ProperPrefix(a: string, b: string) {
    a <= b && a != b
  }

  /**
   * Replacing `k` is mistaken for the live `$` at the head: the fixed text there begins with `k`,
   * or it stops short of `k` right before a value that may supply the rest.
   */
  predicate Captures(ps: seq<Piece>, done: set<string>, k: string)
    requires ps != []
  {
    k <= Segment(ps) || (ProperPrefix(Segment(ps), k) && ThenReplaced(ps, done))
  }

  predicate SafeHead(ps: seq<Piece>, done: set<string>, k: string) {
    Live(ps, done) && ps[0] != Tok(k) ==> !Captures(ps, done, k)
  }

  predicate SafeStep(ps: seq<Piece>, done: set<string>, k: string) {
    ps == [] || (SafeHead(ps, done, k) && SafeStep(ps[1..], done, k))
  }

  /** The check a template author could make: no step of the chain can capture foreign text. */
  predicate Safe(ps: seq<Piece>, keys: seq<string>) {
    forall j :: 0 <= j < |keys| ==> SafeStep(ps, Elems(keys[..j]), keys[j])
  }

  // ---------------------------------------------------------------- sufficiency

  /** After its segment, a text goes on with nothing, a `$`, or a replaced value. */
  lemma {:induction false} FillSegment(ps: seq<Piece>, done: set<string>, val: map<string, string>)
    requires WellFormed(ps)
    ensures Fill(ps, done, val) == Run(ps) + Fill(AfterRun(ps), done, val)
    ensures WellFormed(AfterRun(ps))
  {
    if ps != [] && ps[0].Ch? && ps[0].c != '$' {
      FillSegment(ps[1..], done, val);
    }
  }

  lemma FillLive(ps: seq<Piece>, done: set<string>, val: map<string, string>)
    requires WellFormed(ps) && Live(ps, done)
    ensures Fill(ps, done, val) == Segment(ps) + Fill(AfterRun(ps[1..]), done, val)
    ensures WellFormed(AfterRun(ps[1..]))
    ensures Segment(ps) != "" && Segment(ps)[0] == '$'
  {
    FillSegment(ps[1..], done, val);
    ConcatAssoc(Show(ps[0], done, val), Run(ps[1..]), Fill(AfterRun(ps[1..]), done, val));
    assert ps[0].Tok? ==> IsKey(ps[0].key);
  }

  /** When the live `$` at the head does begin the text `k`, the text was captured. */
  lemma LiveMatchIsCapture(ps: seq<Piece>, done: set<string>, val: map<string, string>, k: string)
    requires WellFormed(ps) && IsKey(k) && Live(ps, done)
    requires k <= Fill(ps, done, val)
    ensures Captures(ps, done, k)
  {
    FillLive(ps, done, val);
    var seg, q := Segment(ps), AfterRun(ps[1..]);
    PrefixOfConcat(k, seg, Fill(q, done, val));
    if !(k <= seg) {
      assert k[|seg|] == k[1..][|seg|-1];
      FirstOfFill(q, done, val);
    }
  }

  lemma FirstOfFill(q: seq<Piece>, done: set<string>, val: map<string, string>)
    requires WellFormed(q)
    requires Fill(q, done, val) != "" && Fill(q, done, val)[0] != '$'
    ensures q[0].Ch? ==> q[0].c != '$'
    ensures q[0].Tok? ==> q[0].key in done
  {
  }

  /** One replace-all advances the partial expansion by one placeholder, or does nothing when it is done. */
  lemma {:induction false} FillStepAny(ps: seq<Piece>, done: set<string>, k: string, v: string,
                                       val: map<string, string>)
    requires WellFormed(ps) && IsKey(k) && PlainValues(val)
    requires SafeStep(ps, done, k)
    requires k in done || v == Lookup(val, k)
    ensures ReplaceAll(Fill(ps, done, val), k, v) == Fill(ps, done + {k}, val)
  {
    if ps != [] {
      FillStepAny(ps[1..], done, k, v, val);
      var rest := Fill(ps[1..], done, val);
      var h := Show(ps[0], done, val);
      if !Live(ps, done) {
        ReplacePlain(h, rest, k, v);
      } else if ps[0] == Tok(k) {
        ReplaceHit(rest, k, v);
      } else {
        if k <= Fill(ps, done, val) {
          LiveMatchIsCapture(ps, done, val, k);
        }
        ReplaceMiss(h, rest, k, v);
      }
    }
  }

  lemma ElemsSnoc(keys: seq<string>)
    requires keys != []
    ensures Elems(keys) == Elems(keys[..|keys|-1]) + {keys[|keys|-1]}
  {
    assert keys == keys[..|keys|-1] + [keys[|keys|-1]];
  }

  lemma SafePrefix(ps: seq<Piece>, keys: seq<string>, n: nat)
    requires Safe(ps, keys) && n <= |keys|
    ensures Safe(ps, keys[..n])
  {
    forall j | 0 <= j < n ensures SafeStep(ps, Elems(keys[..n][..j]), keys[..n][j]) {
      assert keys[..n][..j] == keys[..j];
    }
  }

  /** A safe chain is the one-pass simultaneous substitution, whatever the values. */
  lemma {:induction false} ChainIsFill(ps: seq<Piece>, keys: seq<string>, val: map<string, string>)
    requires WellFormed(ps) && PlainValues(val)
    requires AllKeys(keys)
    requires Safe(ps, keys)
    ensures Chain(Render(ps), keys, val) == Fill(ps, Elems(keys), val)
  {
    if keys == [] {
      RenderAny(ps, val);
      assert Elems(keys) == {};
    } else {
      var n := |keys| - 1;
      SafePrefix(ps, keys, n);
      ChainIsFill(ps, keys[..n], val);
      FillStepAny(ps, Elems(keys[..n]), keys[n], Lookup(val, keys[n]), val);
      ElemsSnoc(keys);
    }
  }

  lemma {:induction false} RenderAny(ps: seq<Piece>, val: map<string, string>)
    ensures Fill(ps, {}, val) == Render(ps)
  {
    if ps != [] {
      RenderAny(ps[1..], val);
    }
  }

  // ---------------------------------------------------------------- necessity

  ghost function LitCount(ps: seq<Piece>, x: char): nat {
    if ps == [] then 0 else (if ps[0] == Ch(x) then 1 else 0) + LitCount(ps[1..], x)
  }

  ghost function TokCount(ps: seq<Piece>, k: string): nat {
    if ps == [] then 0 else (if ps[0] == Tok(k) then 1 else 0) + TokCount(ps[1..], k)
  }

  /** Values in which only `k` carries the mark `x`, once. */
  ghost predicate Marks(val: map<string, string>, k: string, x: char) {
    forall t :: t in val ==> Count(val[t], x) == (if t == k then 1 else 0)
  }

  lemma {:induction false} CountFill(ps: seq<Piece>, done: set<string>, val: map<string, string>, k: string, x: char)
    requires Marks(val, k, x) && k in val && x != '$'
    requires forall p :: p in ps && p.Tok? ==> x !in p.key
    ensures Count(Fill(ps, done, val), x) == LitCount(ps, x) + (if k in done then TokCount(ps, k) else 0)
  {
    if ps != [] {
      CountFill(ps[1..], done, val, k, x);
      CountConcat(Show(ps[0], done, val), Fill(ps[1..], done, val), x);
      if ps[0].Tok? && ps[0].key !in done {
        CountAbsent(ps[0].key, x);
      }
    }
  }

  /** Every standing placeholder `k` is an occurrence; a captured position is one more. */
  lemma {:induction false} HitsFill(ps: seq<Piece>, done: set<string>, val: map<string, string>, k: string, extra: int)
    requires WellFormed(ps) && IsKey(k) && PlainValues(val)
    requires extra == -1 || 0 <= extra < |ps|
    requires extra >= 0 ==>
               Live(ps[extra..], done) && ps[extra] != Tok(k) && k <= Fill(ps[extra..], done, val)
    ensures Hits(Fill(ps, done, val), k) >=
            (if k in done then 0 else TokCount(ps, k)) + (if extra >= 0 then 1 else 0)
  {
    if ps != [] {
      var e := if extra >= 1 then extra - 1 else -1;
      assert extra >= 1 ==> ps[extra..] == ps[1..][e..];
      HitsFill(ps[1..], done, val, k, e);
      var h := Show(ps[0], done, val);
      if Live(ps, done) {
        HitsHead(h, Fill(ps[1..], done, val), k);
        assert extra == 0 ==> ps[extra..] == ps;
      } else {
        HitsPlain(h, Fill(ps[1..], done, val), k);
      }
    }
  }

  lemma {:induction false} UnsafePosition(ps: seq<Piece>, done: set<string>, k: string) returns (i: nat)
    requires !SafeStep(ps, done, k)
    ensures i < |ps| && Live(ps[i..], done) && ps[i] != Tok(k) && Captures(ps[i..], done, k)
  {
    if !SafeHead(ps, done, k) {
      i := 0;
      assert ps[0..] == ps;
    } else {
      var n := UnsafePosition(ps[1..], done, k);
      i := n + 1;
      assert ps[i..] == ps[1..][n..];
    }
  }

  /** Later replacements never remove the mark. */
  lemma {:induction false} CountChain(s: string, keys: seq<string>, n: nat, val: map<string, string>, x: char)
    requires n <= |keys|
    requires AllKeys(keys) && Lacks(keys, x)
    ensures Count(Chain(s, keys, val), x) >= Count(Chain(s, keys[..n], val), x)
    decreases |keys|
  {
    if n == |keys| {
      assert keys[..n] == keys;
    } else {
      var m := |keys| - 1;
      CountChain(s, keys[..m], n, val, x);
      assert keys[..m][..n] == keys[..n];
      CountLast(s, keys, val, x);
    }
  }

  lemma CountLast(s: string, keys: seq<string>, val: map<string, string>, x: char)
    requires keys != [] && AllKeys(keys) && Lacks(keys, x)
    ensures Count(Chain(s, keys, val), x) >= Count(Chain(s, keys[..|keys|-1], val), x)
  {
    var m := |keys| - 1;
    CountGrows(Chain(s, keys[..m], val), keys[m], Lookup(val, keys[m]), x);
  }

  ghost predicate Agree(ps: seq<Piece>, keys: seq<string>, val: map<string, string>)
    requires AllKeys(keys)
  {
    Chain(Render(ps), keys, val) == Fill(ps, Elems(keys), val)
  }

  /** Values that make the position captured at step `j`, at the head of `qs`, visible. */
  ghost function Witness(qs: seq<Piece>, keys: seq<string>, j: nat, x: char): map<string, string>
    requires qs != [] && j < |keys|
    requires Captures(qs, Elems(keys[..j]), keys[j])
  {
    map t | t in keys :: Part(qs, keys[j], t) + (if t == keys[j] then [x] else "")
  }

  /** The rest of `k`, as the value of the placeholder that follows the segment. */
  ghost function Part(qs: seq<Piece>, k: string, t: string): string
    requires qs != [] && (k <= Segment(qs) || (Segment(qs) <= k && AfterRun(qs[1..]) != []))
  {
    if !(k <= Segment(qs)) && AfterRun(qs[1..])[0] == Tok(t) then k[|Segment(qs)|..] else ""
  }

  lemma WitnessMarks(qs: seq<Piece>, keys: seq<string>, j: nat, x: char)
    requires qs != [] && j < |keys|
    requires WellFormed(qs) && x != '$'
    requires AllKeys(keys) && Lacks(keys, x)
    requires Captures(qs, Elems(keys[..j]), keys[j])
    ensures PlainValues(Witness(qs, keys, j, x)) && Marks(Witness(qs, keys, j, x), keys[j], x)
  {
    var w, k, seg := Witness(qs, keys, j, x), keys[j], Segment(qs);
    forall t | t in w
      ensures NoDollar(w[t]) && Count(w[t], x) == (if t == k then 1 else 0)
    {
      var a, b := Part(qs, k, t), if t == k then [x] else "";
      assert a == "" || a == k[1..][|seg|-1..];
      CountConcat(a, b, x);
      CountAbsent(a, x);
    }
  }

  lemma WitnessHits(qs: seq<Piece>, keys: seq<string>, j: nat, x: char)
    requires qs != [] && j < |keys|
    requires WellFormed(qs) && AllKeys(keys)
    requires Captures(qs, Elems(keys[..j]), keys[j]) && Live(qs, Elems(keys[..j]))
    ensures keys[j] <= Fill(qs, Elems(keys[..j]), Witness(qs, keys, j, x))
  {
    var w, k, done := Witness(qs, keys, j, x), keys[j], Elems(keys[..j]);
    if !(k <= Segment(qs)) {
      var d := AfterRun(qs[1..])[0].key;
      var b := if d == k then [x] else "";
      assert d in keys by { assert d in keys[..j]; }
      assert Part(qs, k, d) == k[|Segment(qs)|..];
      assert Lookup(w, d) == k[|Segment(qs)|..] + b;
      CompletedHit(qs, done, w, k, b);
    } else {
      FillLive(qs, done, w);
      PrefixExtends(k, Segment(qs), Fill(AfterRun(qs[1..]), done, w));
    }
  }

  lemma CompletedHit(qs: seq<Piece>, done: set<string>, w: map<string, string>, k: string, b: string)
    requires WellFormed(qs) && Live(qs, done)
    requires ThenReplaced(qs, done) && Segment(qs) <= k
    requires Lookup(w, AfterRun(qs[1..])[0].key) == k[|Segment(qs)|..] + b
    ensures k <= Fill(qs, done, w)
  {
    FillLive(qs, done, w);
    PrefixCompletes(k, Segment(qs), b, Fill(AfterRun(qs[1..])[1..], done, w));
  }

  lemma PrefixExtends(k: string, s: string, t: string)
    requires k <= s
    ensures k <= s + t
  {
    assert (s + t)[..|k|] == s[..|k|];
  }

  lemma PrefixCompletes(k: string, seg: string, b: string, t: string)
    requires seg <= k
    ensures k <= seg + ((k[|seg|..] + b) + t)
  {
    assert seg + ((k[|seg|..] + b) + t) == k + (b + t);
  }

  /** An unsafe step is visible in the final text for some values without `$`. */
  lemma UnsafeIsVisible(ps: seq<Piece>, keys: seq<string>, x: char) returns (val: map<string, string>)
    requires WellFormed(ps) && x != '$'
    requires forall p :: p in ps && p.Tok? ==> x !in p.key
    requires AllKeys(keys) && Lacks(keys, x)
    requires !Safe(ps, keys)
    ensures PlainValues(val) && val.Keys == Elems(keys) && !Agree(ps, keys, val)
  {
    var j := FirstUnsafe(ps, keys);
    var D, k := Elems(keys[..j]), keys[j];
    var i := UnsafePosition(ps, D, k);
    val := Witness(ps[i..], keys, j, x);
    WitnessMarks(ps[i..], keys, j, x);
    WitnessHits(ps[i..], keys, j, x);
    CapturedTextShows(ps, keys, j, i, val, x);
  }

  /** A captured position leaves one more mark in the chain's text than in the simultaneous one. */
  lemma CapturedTextShows(ps: seq<Piece>, keys: seq<string>, j: nat, i: nat, val: map<string, string>, x: char)
    requires j < |keys| && i < |ps| && x != '$'
    requires WellFormed(ps) && PlainValues(val)
    requires forall p :: p in ps && p.Tok? ==> x !in p.key
    requires AllKeys(keys) && Lacks(keys, x)
    requires Safe(ps, keys[..j])
    requires keys[j] in val && Marks(val, keys[j], x)
    requires Live(ps[i..], Elems(keys[..j])) && ps[i] != Tok(keys[j])
    requires keys[j] <= Fill(ps[i..], Elems(keys[..j]), val)
    ensures !Agree(ps, keys, val)
  {
    CapturedStep(ps, Elems(keys[..j]), keys[j], i, val, x);
    CaptureCounts(ps, keys, j, val, x);
    CountChain(Render(ps), keys, j + 1, val, x);
    CountFill(ps, Elems(keys), val, keys[j], x);
  }

  lemma CaptureCounts(ps: seq<Piece>, keys: seq<string>, j: nat, val: map<string, string>, x: char)
    requires j < |keys| && AllKeys(keys) && WellFormed(ps) && PlainValues(val) && Safe(ps, keys[..j]) && keys[j] in val
    ensures Chain(Render(ps), keys[..j+1], val) == ReplaceAll(Fill(ps, Elems(keys[..j]), val), keys[j], val[keys[j]])
  {
    ChainIsFill(ps, keys[..j], val);
    ChainSnoc(Render(ps), keys, j, val);
  }

  lemma CapturedStep(ps: seq<Piece>, done: set<string>, k: string, i: nat, val: map<string, string>, x: char)
    requires i < |ps| && x != '$' && x !in k && IsKey(k)
    requires WellFormed(ps) && PlainValues(val)
    requires forall p :: p in ps && p.Tok? ==> x !in p.key
    requires k in val && Marks(val, k, x)
    requires Live(ps[i..], done) && ps[i] != Tok(k) && k <= Fill(ps[i..], done, val)
    ensures Count(ReplaceAll(Fill(ps, done, val), k, val[k]), x) > LitCount(ps, x) + TokCount(ps, k)
  {
    CountFill(ps, done, val, k, x);
    HitsFill(ps, done, val, k, i);
    var filled := Fill(ps, done, val);
    var hits := Hits(filled, k);
    CountReplace(filled, k, val[k], x);
    assert Count(val[k], x) == 1 && hits * 1 == hits;
  }

  lemma {:induction false} FirstUnsafe(ps: seq<Piece>, keys: seq<string>) returns (j: nat)
    requires !Safe(ps, keys)
    ensures j < |keys| && Safe(ps, keys[..j]) && !SafeStep(ps, Elems(keys[..j]), keys[j])
    decreases |keys|
  {
    if keys == [] {
    } else {
      var n := |keys| - 1;
      if Safe(ps, keys[..n]) {
        j := n;
        forall m | 0 <= m < n ensures SafeStep(ps, Elems(keys[..m]), keys[m]) {
          assert keys[..n][..m] == keys[..m] && keys[..n][m] == keys[m];
        }
      } else {
        j := FirstUnsafe(ps, keys[..n]);
        assert keys[..n][..j] == keys[..j];
      }
    }
  }

  /**
   * Exactly when replacing placeholder by placeholder means replacing them all at once:
   * for every template and key list, the chain agrees with the simultaneous substitution on all
   * `$`-free values iff no step can capture foreign text.
   */
  lemma ChainSubstitutesIffSafe(ps: seq<Piece>, keys: seq<string>, x: char)
    requires WellFormed(ps) && x != '$'
    requires forall p :: p in ps && p.Tok? ==> x !in p.key
    requires AllKeys(keys) && Lacks(keys, x)
    ensures (forall val: map<string, string> :: PlainValues(val) ==> Agree(ps, keys, val)) <==> Safe(ps, keys)
  {
    if Safe(ps, keys) {
      forall val: map<string, string> | PlainValues(val) ensures Agree(ps, keys, val) {
        ChainIsFill(ps, keys, val);
      }
    } else {
      var val := UnsafeIsVisible(ps, keys, x);
    }
  }
}
