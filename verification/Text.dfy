/** Strings as the broker handles them: a `char` stands for one byte of a Go string. */
module Text {

  predicate NoDollar(s: string) {
    '$' !in s
  }

  /** A placeholder: `$` followed by text without another `$`. */
  predicate IsKey(k: string) {
    |k| > 0 && k[0] == '$' && NoDollar(k[1..])
  }

  lemma KeyChars(k: string)
    requires IsKey(k)
    ensures forall i :: 1 <= i < |k| ==> k[i] != '$'
  {
    assert forall i :: 1 <= i < |k| ==> k[i] == k[1..][i-1];
  }

  /** A Go map lookup: an absent key yields the empty string. */
  function Lookup(m: map<string, string>, k: string): string {
    if k in m then m[k] else ""
  }

  /** `strings.Replace(s, k, v, -1)` for a non-empty `k`. */
  function ReplaceAll(s: string, k: string, v: string): string
    requires |k| > 0
  {
    if s == "" then ""
    else if k <= s then v + ReplaceAll(s[|k|..], k, v)
    else [s[0]] + ReplaceAll(s[1..], k, v)
  }

  /** `strings.Join`. */
  function Join(parts: seq<string>, sep: string): string {
    if |parts| == 0 then ""
    else if |parts| == 1 then parts[0]
    else parts[0] + sep + Join(parts[1..], sep)
  }

  /** How many times the character `x` occurs in `s`. */
  ghost function Count(s: string, x: char): nat {
    if s == "" then 0 else (if s[0] == x then 1 else 0) + Count(s[1..], x)
  }

  /** At how many positions of `s` the text `k` begins. */
  ghost function Hits(s: string, k: string): nat {
    if s == "" then 0 else (if k <= s then 1 else 0) + Hits(s[1..], k)
  }

  lemma SliceSlice(s: string, m: nat, n: nat)
    requires m + n <= |s|
    ensures s[m..][..n] == s[m..m+n] && s[m..][n..] == s[m+n..]
    ensures s[..m] + s[m..m+n] == s[..m+n]
  {
  }

  lemma TakeDrop(s: string, m: nat)
    requires m <= |s|
    ensures s[..m] + s[m..] == s
  {
  }

  /** A cut within the first of two texts. */
  lemma CutConcat(a: string, x: string, m: nat)
    requires m <= |a|
    ensures (a + x)[..m] == a[..m] && (a + x)[m..] == a[m..] + x
  {
  }

  lemma ConcatAssoc(a: string, b: string, c: string)
    ensures (a + b) + c == a + (b + c)
  {
  }

  lemma PrefixOfConcat(k: string, a: string, b: string)
    requires k <= a + b
    ensures k <= a || (a <= k && |a| < |k| && b != "" && b[0] == k[|a|])
  {
    if |k| <= |a| {
      assert k == (a + b)[..|k|] == a[..|k|];
    } else {
      assert a == (a + b)[..|a|] == k[..|a|];
    }
  }

  lemma {:induction false} ReplacePlain(p: string, t: string, k: string, v: string)
    requires IsKey(k) && NoDollar(p)
    ensures ReplaceAll(p + t, k, v) == p + ReplaceAll(t, k, v)
  {
    if p == "" {
      assert p + t == t;
    } else {
      var s := p + t;
      assert s[0] == p[0] && p[0] != '$';
      assert s[1..] == p[1..] + t;
      ReplacePlain(p[1..], t, k, v);
      assert p == [p[0]] + p[1..];
    }
  }

  lemma ReplaceHit(t: string, k: string, v: string)
    requires |k| > 0
    ensures ReplaceAll(k + t, k, v) == v + ReplaceAll(t, k, v)
  {
    assert (k + t)[|k|..] == t;
  }

  lemma ReplaceHead(h: string, t: string)
    requires IsKey(h) && NoDollar(t)
    ensures ReplaceAll(h + t, h, "") == t
  {
    ReplaceHit(t, h, "");
    ReplacePlain(t, "", h, "");
    assert t + "" == t;
  }

  /** A `$`-headed text that is not an occurrence of `k` is copied up to the next `$`. */
  lemma ReplaceMiss(h: string, t: string, k: string, v: string)
    requires IsKey(k) && IsKey(h) && !(k <= h + t)
    ensures ReplaceAll(h + t, k, v) == h + ReplaceAll(t, k, v)
  {
    HeadTail(h, t);
    ReplaceStep(h + t, k, v);
    ReplacePlain(h[1..], t, k, v);
    ConcatAssoc([h[0]], h[1..], ReplaceAll(t, k, v));
  }

  lemma HeadTail(h: string, t: string)
    requires h != ""
    ensures (h + t)[0] == h[0] && (h + t)[1..] == h[1..] + t && [h[0]] + h[1..] == h
  {
  }

  lemma ReplaceStep(s: string, k: string, v: string)
    requires |k| > 0 && s != "" && !(k <= s)
    ensures ReplaceAll(s, k, v) == [s[0]] + ReplaceAll(s[1..], k, v)
  {
  }

  lemma {:induction false} CountConcat(a: string, b: string, x: char)
    ensures Count(a + b, x) == Count(a, x) + Count(b, x)
  {
    if a == "" {
      assert a + b == b;
    } else {
      assert (a + b)[1..] == a[1..] + b;
      CountConcat(a[1..], b, x);
    }
  }

  lemma {:induction false} CountAbsent(s: string, x: char)
    requires x !in s
    ensures Count(s, x) == 0
  {
    if s != "" {
      CountAbsent(s[1..], x);
    }
  }

  lemma {:induction false} HitsPlain(p: string, t: string, k: string)
    requires IsKey(k) && NoDollar(p)
    ensures Hits(p + t, k) == Hits(t, k)
  {
    if p == "" {
      assert p + t == t;
    } else {
      assert (p + t)[0] == p[0] && p[0] != '$';
      assert (p + t)[1..] == p[1..] + t;
      HitsPlain(p[1..], t, k);
    }
  }

  lemma HitsHead(h: string, t: string, k: string)
    requires IsKey(k) && IsKey(h)
    ensures Hits(h + t, k) == (if k <= h + t then 1 else 0) + Hits(t, k)
  {
    assert (h + t)[1..] == h[1..] + t;
    HitsPlain(h[1..], t, k);
  }

  /** Replacing a placeholder that lacks the character `x` adds one copy of the value's `x`s per occurrence. */
  lemma {:induction false} CountReplace(s: string, k: string, v: string, x: char)
    requires IsKey(k) && x !in k
    ensures Count(ReplaceAll(s, k, v), x) == Count(s, x) + Hits(s, k) * Count(v, x)
  {
    if s == "" {
    } else if k <= s {
      var t := s[|k|..];
      assert s == k + t;
      HitsHead(k, t, k);
      CountReplace(t, k, v, x);
      CountConcat(v, ReplaceAll(t, k, v), x);
      CountConcat(k, t, x);
      CountAbsent(k, x);
      OneMore(Hits(t, k), Count(v, x));
    } else {
      CountReplace(s[1..], k, v, x);
      CountConcat([s[0]], ReplaceAll(s[1..], k, v), x);
    }
  }

  lemma OneMore(h: nat, c: nat)
    ensures (1 + h) * c == c + h * c
  {
  }

  /** Replacing a text without `x` removes no `x`. */
  lemma {:induction false} CountGrows(s: string, k: string, v: string, x: char)
    requires |k| > 0 && x !in k
    ensures Count(ReplaceAll(s, k, v), x) >= Count(s, x)
  {
    if s == "" {
    } else if k <= s {
      var t := s[|k|..];
      assert s == k + t;
      CountGrows(t, k, v, x);
      CountConcat(v, ReplaceAll(t, k, v), x);
      CountConcat(k, t, x);
      CountAbsent(k, x);
    } else {
      CountGrows(s[1..], k, v, x);
      CountConcat([s[0]], ReplaceAll(s[1..], k, v), x);
    }
  }

  /** Replacing brings no character that neither the text nor the value has. */
  lemma {:induction false} ReplaceLacks(s: string, k: string, v: string, x: char)
    requires |k| > 0 && x !in s && x !in v
    ensures x !in ReplaceAll(s, k, v)
  {
    if s != "" {
      if k <= s {
        ReplaceLacks(s[|k|..], k, v, x);
      } else {
        ReplaceLacks(s[1..], k, v, x);
      }
    }
  }

  // ---------------------------------------------------------------- replaced texts

  predicate OccursAt(s: string, k: string, j: nat) {
    j + |k| <= |s| && s[j..j+|k|] == k
  }

  lemma OccursInTail(s: string, k: string, j: nat)
    requires s != ""
    ensures OccursAt(s[1..], k, j) <==> OccursAt(s, k, j + 1)
    ensures OccursAt(s, k, 0) <==> k <= s
  {
    if j + 1 + |k| <= |s| {
      assert s[1..][j..j+|k|] == s[j+1..j+1+|k|];
    }
  }

  lemma FirstInTail(s: string, k: string, i: nat)
    requires 0 < i && OccursAt(s, k, i) && forall j: nat :: j < i ==> !OccursAt(s, k, j)
    ensures s != "" && OccursAt(s[1..], k, i - 1) && forall j: nat :: j < i - 1 ==> !OccursAt(s[1..], k, j)
  {
    OccursInTail(s, k, i - 1);
    forall j: nat | j < i - 1 ensures !OccursAt(s[1..], k, j) {
      OccursInTail(s, k, j);
    }
  }

  /** The leftmost occurrence is replaced, and then those in the text behind it. */
  lemma {:induction false} ReplaceFirst(s: string, k: string, v: string, i: nat)
    requires |k| > 0 && OccursAt(s, k, i) && forall j: nat :: j < i ==> !OccursAt(s, k, j)
    ensures ReplaceAll(s, k, v) == s[..i] + (v + ReplaceAll(s[i+|k|..], k, v))
  {
    OccursInTail(s, k, 0);
    if i == 0 {
      ReplaceHere(s, k, v);
    } else {
      FirstInTail(s, k, i);
      ReplaceFirst(s[1..], k, v, i - 1);
      ReplaceStep(s, k, v);
      BehindFirst(s, i, |k|, v + ReplaceAll(s[i+|k|..], k, v));
    }
  }

  lemma ReplaceHere(s: string, k: string, v: string)
    requires |k| > 0 && k <= s
    ensures ReplaceAll(s, k, v) == s[..0] + (v + ReplaceAll(s[0+|k|..], k, v))
  {
    assert s[..0] == "";
  }

  lemma BehindFirst(s: string, i: nat, n: nat, x: string)
    requires 0 < i && i + n <= |s|
    ensures s[1..][i-1+n..] == s[i+n..] && [s[0]] + (s[1..][..i-1] + x) == s[..i] + x
  {
    FirstOfSlice(s, i);
  }

  lemma FirstOfSlice(s: string, i: nat)
    requires 0 < i <= |s|
    ensures [s[0]] + s[1..][..i-1] == s[..i]
  {
  }

  /** A text in which the key does not occur stays. */
  lemma {:induction false} ReplaceNone(s: string, k: string, v: string)
    requires |k| > 0 && forall j: nat :: !OccursAt(s, k, j)
    ensures ReplaceAll(s, k, v) == s
  {
    if s != "" {
      forall j: nat ensures !OccursAt(s[1..], k, j) {
        OccursInTail(s, k, j);
      }
      OccursInTail(s, k, 0);
      ReplaceNone(s[1..], k, v);
      FirstOfSlice(s, |s|);
    }
  }

  // ---------------------------------------------------------------- joined texts

  /** The texts between the occurrences of a character. */
  function SplitOn(s: string, c: char): (parts: seq<string>)
    ensures |parts| > 0
  {
    if s == "" then [""]
    else
      var rest := SplitOn(s[1..], c);
      if s[0] == c then [""] + rest else [[s[0]] + rest[0]] + rest[1..]
  }

  lemma {:induction false} SplitFirst(a: string, c: char, x: string)
    requires c !in a
    ensures SplitOn(a + ([c] + x), c) == [a] + SplitOn(x, c)
  {
    var s := a + ([c] + x);
    if a == "" {
      assert s[0] == c && s[1..] == x;
    } else {
      assert s[0] == a[0] && s[1..] == a[1..] + ([c] + x);
      SplitFirst(a[1..], c, x);
      HeadJoins(a, SplitOn(x, c));
    }
  }

  lemma {:induction false} SplitWhole(a: string, c: char)
    requires c !in a
    ensures SplitOn(a, c) == [a]
  {
    if a != "" {
      SplitWhole(a[1..], c);
      HeadJoins(a, []);
    }
  }

  lemma HeadJoins(a: string, rest: seq<string>)
    requires a != ""
    ensures var r := [a[1..]] + rest; [[a[0]] + r[0]] + r[1..] == [a] + rest
  {
    assert [a[0]] + a[1..] == a;
  }

  /** What was joined by a character that none of the texts has is got back by splitting. */
  lemma {:induction false} SplitOfJoin(parts: seq<string>, c: char)
    requires parts != [] && forall i :: 0 <= i < |parts| ==> c !in parts[i]
    ensures SplitOn(Join(parts, [c]), c) == parts
  {
    if |parts| == 1 {
      SplitWhole(parts[0], c);
    } else {
      SplitOfJoin(parts[1..], c);
      SplitFirst(parts[0], c, Join(parts[1..], [c]));
      ConcatAssoc(parts[0], [c], Join(parts[1..], [c]));
    }
  }

  /** Where the text `i` begins among texts with one character between neighbours. */
  function Offset(parts: seq<string>, i: nat): nat
    requires i <= |parts|
  {
    if i == 0 then 0 else Offset(parts, i - 1) + |parts[i-1]| + 1
  }

  lemma {:induction false} OffsetTail(parts: seq<string>, i: nat)
    requires 0 < i <= |parts|
    ensures Offset(parts, i) == |parts[0]| + 1 + Offset(parts[1..], i - 1)
  {
    if i > 1 {
      OffsetTail(parts, i - 1);
    }
  }

  /** The text `i` stands at its offset, with the character before it and nothing else between. */
  predicate StandsAt(s: string, parts: seq<string>, c: char, i: nat)
    requires i < |parts|
  {
    var m, n := Offset(parts, i), |parts[i]|;
    && m + n <= |s| && s[m..m+n] == parts[i]
    && (i > 0 ==> m > 0 && s[m-1] == c)
    && (i + 1 == |parts| ==> m + n == |s|)
  }

  lemma {:induction false} JoinAt(parts: seq<string>, c: char, i: nat)
    requires i < |parts|
    ensures StandsAt(Join(parts, [c]), parts, c, i)
  {
    if i > 0 {
      JoinAt(parts[1..], c, i - 1);
      StandsBehind(parts[0], c, Join(parts[1..], [c]), parts, i);
    } else if |parts| > 1 {
      assert Join(parts, [c])[..|parts[0]|] == parts[0];
    }
  }

  lemma StandsBehind(a: string, c: char, x: string, parts: seq<string>, i: nat)
    requires 0 < i < |parts| && a == parts[0] && StandsAt(x, parts[1..], c, i - 1)
    ensures StandsAt(a + [c] + x, parts, c, i)
  {
    OffsetTail(parts, i);
    BehindHead(a, c, x, Offset(parts[1..], i - 1), |parts[i]|);
  }

  lemma BehindHead(a: string, c: char, x: string, m: nat, n: nat)
    requires m + n <= |x|
    ensures var s := a + [c] + x;
            && s[|a|+1+m..|a|+1+m+n] == x[m..m+n] && s[|a|] == c
            && (m > 0 ==> s[|a|+m] == x[m-1]) && |s| == |a| + 1 + |x|
  {
  }
}
