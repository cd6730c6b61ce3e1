/** The replacement texts of Go's `Regexp.ReplaceAllString`, for an expression without groups. */
module Replacement {
  import opened Decimal
  import opened Text

  predicate IsWord(c: char) {
    'A' <= c <= 'Z' || 'a' <= c <= 'z' || '0' <= c <= '9' || c == '_'
  }

  function WordLen(s: string): (n: nat)
    ensures n <= |s|
  {
    if s == "" || !IsWord(s[0]) then 0 else 1 + WordLen(s[1..])
  }

  /** The name that a `$` refers to, plain or in braces, and how long the reference is. */
  function Reference(t: string): (r: Option<(string, nat)>)
    requires t != "" && t[0] == '$'
    ensures r.Some? ==> 0 < r.value.1 <= |t|
  {
    var brace := |t| > 1 && t[1] == '{';
    var body := if brace then t[2..] else t[1..];
    var n := WordLen(body);
    if n == 0 then None
    else if !brace then Some((body[..n], 1 + n))
    else if n < |body| && body[n] == '}' then Some((body[..n], 3 + n))
    else None
  }

  /** `$0` is the match, `$$` a dollar, any other reference is to a group that does not exist; a lone `$` stays. */
  function Replaced(t: string, match_: string): string {
    if t == "" then ""
    else if t[0] != '$' then [t[0]] + Replaced(t[1..], match_)
    else if |t| > 1 && t[1] == '$' then "$" + Replaced(t[2..], match_)
    else
      var ref := Reference(t);
      if ref.None? then "$" + Replaced(t[1..], match_)
      else (if ref.value.0 == "0" then match_ else "") + Replaced(t[ref.value.1..], match_)
  }

  /** A text without `$` replaces a match by itself. */
  lemma {:induction false} ReplacedPlain(t: string, match_: string)
    requires NoDollar(t)
    ensures Replaced(t, match_) == t
  {
    if t != "" {
      ReplacedPlain(t[1..], match_);
      assert t == [t[0]] + t[1..];
    }
  }

  /** The characters of a name: letters and digits of ASCII, and the underscore. */
  ghost predicate Named(w: string) {
    w != "" &&
    forall i :: 0 <= i < |w| ==> w[i] == '_' || '0' <= w[i] <= '9' || 'a' <= w[i] <= 'z' || 'A' <= w[i] <= 'Z'
  }

  lemma {:induction false} WordOf(w: string, t: string)
    requires Named(w) && (t == "" || !Named([t[0]]))
    ensures WordLen(w + t) == |w| && (w + t)[..|w|] == w
  {
    assert (w + t)[1..] == w[1..] + t;
    if |w| == 1 {
      assert w[1..] + t == t;
      NoWord(t);
    } else {
      assert forall i :: 0 <= i < |w| - 1 ==> w[1..][i] == w[i+1];
      WordOf(w[1..], t);
    }
  }

  lemma NoWord(t: string)
    requires t == "" || !Named([t[0]])
    ensures WordLen(t) == 0
  {
    if t != "" {
      assert [t[0]][0] == t[0];
    }
  }

  /** `$` with a name, plain or in braces: the whole match for the name 0, else nothing. */
  lemma ReplacedReference(w: string, t: string, match_: string)
    requires Named(w)
    ensures t == "" || !Named([t[0]]) ==>
              Replaced("$" + (w + t), match_) == (if w == "0" then match_ else "") + Replaced(t, match_)
    ensures Replaced("${" + (w + ("}" + t)), match_) == (if w == "0" then match_ else "") + Replaced(t, match_)
  {
    if t == "" || !Named([t[0]]) {
      var s := "$" + (w + t);
      WordOf(w, t);
      assert s[1..] == w + t && s[1+|w|..] == t && s[1] == w[0];
    }
    var s, more := "${" + (w + ("}" + t)), "}" + t;
    assert more[0] == '}' && [more[0]][0] == '}';
    WordOf(w, more);
    assert s[2..] == w + more && s[1] == '{';
    assert (w + more)[|w|] == '}' && s[3+|w|..] == t;
  }

  /** Two dollars are one; a `$` that begins no reference stays. */
  lemma ReplacedDollar(t: string, match_: string)
    ensures Replaced("$$" + t, match_) == "$" + Replaced(t, match_)
    ensures t == "" || (t[0] != '$' && t[0] != '{' && !Named([t[0]])) ==>
              Replaced("$" + t, match_) == "$" + Replaced(t, match_)
    ensures t != "" && t[0] == '{' && !(exists w: string, x: string :: Named(w) && t == "{" + (w + ("}" + x))) ==>
              Replaced("$" + t, match_) == "$" + Replaced(t, match_)
  {
    assert ("$$" + t)[2..] == t;
    var s := "$" + t;
    assert s[1..] == t;
    if t == "" || (t[0] != '$' && t[0] != '{' && !Named([t[0]])) {
      NoWord(t);
    } else if t[0] == '{' && !(exists w: string, x: string :: Named(w) && t == "{" + (w + ("}" + x))) {
      NoBraces(t);
    }
  }

  lemma NoBraces(t: string)
    requires t != "" && t[0] == '{' && !(exists w: string, x: string :: Named(w) && t == "{" + (w + ("}" + x)))
    ensures Reference("$" + t).None?
  {
    var s := "$" + t;
    var body := t[1..];
    assert s[2..] == body;
    var n := WordLen(body);
    WordIsNamed(body);
    if n > 0 && n < |body| && body[n] == '}' {
      assert t == "{" + (body[..n] + ("}" + body[n+1..]));
    }
  }

  lemma {:induction false} WordIsNamed(s: string)
    ensures WordLen(s) > 0 ==> Named(s[..WordLen(s)])
  {
    if WordLen(s) > 1 {
      WordIsNamed(s[1..]);
      assert s[..WordLen(s)] == [s[0]] + s[1..][..WordLen(s)-1];
    }
  }

  /** A text without `$` before it stays. */
  lemma {:induction false} ReplacedBehind(p: string, t: string, match_: string)
    requires NoDollar(p)
    ensures Replaced(p + t, match_) == p + Replaced(t, match_)
  {
    if p == "" {
      assert p + t == t;
    } else {
      assert (p + t)[1..] == p[1..] + t;
      ReplacedBehind(p[1..], t, match_);
      HeadTail(p, Replaced(t, match_));
    }
  }
}
