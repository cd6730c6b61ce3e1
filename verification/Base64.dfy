/** Base64 with padding, section 4 of RFC 4648: `encoding/base64.StdEncoding`. */
module Base64 {
  import opened Decimal

  predicate IsBytes(s: string) {
    forall i :: 0 <= i < |s| ==> s[i] as int < 256
  }

  /** The byte a `char` stands for. */
  function ByteOf(c: char): (b: nat)
    ensures b < 256
  {
    if c as int < 256 then c as int else 0
  }

  function Symbol(v: nat): char
    requires v < 64
  {
    if v < 26 then 'A' + v as char
    else if v < 52 then 'a' + (v - 26) as char
    else if v < 62 then '0' + (v - 52) as char
    else if v == 62 then '+'
    else '/'
  }

  function Sextet(c: char): Option<nat> {
    if 'A' <= c <= 'Z' then Some(c as int - 'A' as int)
    else if 'a' <= c <= 'z' then Some(c as int - 'a' as int + 26)
    else if '0' <= c <= '9' then Some(c as int - '0' as int + 52)
    else if c == '+' then Some(62)
    else if c == '/' then Some(63)
    else None
  }

  predicate IsCoded(s: string) {
    forall i :: 0 <= i < |s| ==> Sextet(s[i]).Some? || s[i] == '='
  }

  /** Three bytes as four symbols. */
  function Quad(a: nat, b: nat, c: nat): (q: string)
    requires a < 256 && b < 256 && c < 256
    ensures |q| == 4 && IsCoded(q)
  {
    [Symbol(a / 4), Symbol(a % 4 * 16 + b / 16), Symbol(b % 16 * 4 + c / 64), Symbol(c % 64)]
  }

  function Encode(s: string): (t: string)
    ensures IsCoded(t)
  {
    if |s| == 0 then ""
    else if |s| == 1 then Quad(ByteOf(s[0]), 0, 0)[..2] + "=="
    else if |s| == 2 then Quad(ByteOf(s[0]), ByteOf(s[1]), 0)[..3] + "="
    else Quad(ByteOf(s[0]), ByteOf(s[1]), ByteOf(s[2])) + Encode(s[3..])
  }

  function FirstByte(w: nat, x: nat): nat {
    (w * 4 + x / 16) % 256
  }

  function SecondByte(x: nat, y: nat): nat {
    (x % 16 * 16 + y / 4) % 256
  }

  function ThirdByte(y: nat, z: nat): nat {
    (y % 4 * 64 + z) % 256
  }

  /** The bytes of one group of four symbols, of which the last two may be padding. */
  function DecodeQuad(q: string): Option<string>
    requires |q| == 4
  {
    var w, x, y, z := Sextet(q[0]), Sextet(q[1]), Sextet(q[2]), Sextet(q[3]);
    if w.None? || x.None? then None
    else if q[2] == '=' && q[3] == '=' then Some([FirstByte(w.value, x.value) as char])
    else if y.None? then None
    else if q[3] == '=' then Some([FirstByte(w.value, x.value) as char, SecondByte(x.value, y.value) as char])
    else if z.None? then None
    else Some([FirstByte(w.value, x.value) as char, SecondByte(x.value, y.value) as char,
               ThirdByte(y.value, z.value) as char])
  }

  function Decode(t: string): Option<string> {
    if t == "" then Some("")
    else if |t| < 4 then None
    else
      var head := DecodeQuad(t[..4]);
      if head.None? || (|t| > 4 && |head.value| < 3) then None
      else
        var rest := Decode(t[4..]);
        if rest.None? then None else Some(head.value + rest.value)
  }

  lemma SextetOfSymbol(v: nat)
    requires v < 64
    ensures Sextet(Symbol(v)) == Some(v) && Symbol(v) != '='
  {
  }

  lemma Regroup(a: nat, b: nat, c: nat)
    requires a < 256 && b < 256 && c < 256
    ensures a / 4 < 64 && a % 4 * 16 + b / 16 < 64 && b % 16 * 4 + c / 64 < 64 && c % 64 < 64
    ensures FirstByte(a / 4, a % 4 * 16 + b / 16) == a
    ensures SecondByte(a % 4 * 16 + b / 16, b % 16 * 4 + c / 64) == b
    ensures ThirdByte(b % 16 * 4 + c / 64, c % 64) == c
  {
    RegroupTwo(a / 4, a % 4, b / 16);
    RegroupMiddle(a % 4, b / 16, b % 16, c / 64);
    RegroupLast(b % 16, c / 64, c % 64);
  }

  lemma RegroupTwo(hi: nat, lo: nat, next: nat)
    requires hi < 64 && lo < 4 && next < 16
    ensures FirstByte(hi, lo * 16 + next) == hi * 4 + lo
  {
  }

  lemma RegroupMiddle(before: nat, hi: nat, lo: nat, next: nat)
    requires before < 4 && hi < 16 && lo < 16 && next < 4
    ensures SecondByte(before * 16 + hi, lo * 4 + next) == hi * 16 + lo
  {
  }

  lemma RegroupLast(before: nat, hi: nat, lo: nat)
    requires before < 16 && hi < 4 && lo < 64
    ensures ThirdByte(before * 4 + hi, lo) == hi * 64 + lo
  {
  }

  lemma QuadSextets(a: nat, b: nat, c: nat)
    requires a < 256 && b < 256 && c < 256
    ensures var q := Quad(a, b, c);
            && Sextet(q[0]) == Some(a / 4) && Sextet(q[1]) == Some(a % 4 * 16 + b / 16)
            && Sextet(q[2]) == Some(b % 16 * 4 + c / 64) && Sextet(q[3]) == Some(c % 64)
            && q[2] != '=' && q[3] != '='
  {
    Regroup(a, b, c);
    SextetOfSymbol(a / 4);
    SextetOfSymbol(a % 4 * 16 + b / 16);
    SextetOfSymbol(b % 16 * 4 + c / 64);
    SextetOfSymbol(c % 64);
  }

  lemma GroupOfThree(a: nat, b: nat, c: nat)
    requires a < 256 && b < 256 && c < 256
    ensures DecodeQuad(Quad(a, b, c)) == Some([a as char, b as char, c as char])
  {
    QuadSextets(a, b, c);
    Regroup(a, b, c);
  }

  lemma GroupOfTwo(a: nat, b: nat)
    requires a < 256 && b < 256
    ensures DecodeQuad(Quad(a, b, 0)[..3] + "=") == Some([a as char, b as char])
  {
    QuadSextets(a, b, 0);
    Regroup(a, b, 0);
    Padded(Quad(a, b, 0));
  }

  lemma GroupOfOne(a: nat)
    requires a < 256
    ensures DecodeQuad(Quad(a, 0, 0)[..2] + "==") == Some([a as char])
  {
    QuadSextets(a, 0, 0);
    Regroup(a, 0, 0);
    Padded(Quad(a, 0, 0));
  }

  lemma Padded(q: string)
    requires |q| == 4
    ensures var t := q[..3] + "="; |t| == 4 && t[0] == q[0] && t[1] == q[1] && t[2] == q[2] && t[3] == '='
    ensures var t := q[..2] + "=="; |t| == 4 && t[0] == q[0] && t[1] == q[1] && t[2] == '=' && t[3] == '='
  {
  }

  lemma ByteChar(c: char)
    requires c as int < 256
    ensures ByteOf(c) as char == c
  {
  }

  lemma DecodeThree(s: string)
    requires |s| == 3 && IsBytes(s)
    ensures DecodeQuad(Quad(ByteOf(s[0]), ByteOf(s[1]), ByteOf(s[2]))) == Some(s)
  {
    var a, b, c := ByteOf(s[0]), ByteOf(s[1]), ByteOf(s[2]);
    GroupOfThree(a, b, c);
    ByteChar(s[0]);
    ByteChar(s[1]);
    ByteChar(s[2]);
    assert [a as char, b as char, c as char] == s;
  }

  lemma DecodeTwo(s: string)
    requires |s| == 2 && IsBytes(s)
    ensures DecodeQuad(Quad(ByteOf(s[0]), ByteOf(s[1]), 0)[..3] + "=") == Some(s)
  {
    var a, b := ByteOf(s[0]), ByteOf(s[1]);
    GroupOfTwo(a, b);
    ByteChar(s[0]);
    ByteChar(s[1]);
    assert [a as char, b as char] == s;
  }

  lemma DecodeOne(s: string)
    requires |s| == 1 && IsBytes(s)
    ensures DecodeQuad(Quad(ByteOf(s[0]), 0, 0)[..2] + "==") == Some(s)
  {
    var a := ByteOf(s[0]);
    GroupOfOne(a);
    ByteChar(s[0]);
    assert [a as char] == s;
  }

  /** Decoding inverts encoding, on every byte string. */
  lemma {:induction false} DecodeOfEncode(s: string)
    requires IsBytes(s)
    ensures Decode(Encode(s)) == Some(s)
  {
    if |s| == 1 {
      DecodeOne(s);
      DecodeLast(Encode(s), s);
    } else if |s| == 2 {
      DecodeTwo(s);
      DecodeLast(Encode(s), s);
    } else if |s| >= 3 {
      DecodeThree(s[..3]);
      DecodeOfEncode(s[3..]);
      DecodeMore(Quad(ByteOf(s[0]), ByteOf(s[1]), ByteOf(s[2])), Encode(s[3..]), s);
    }
  }

  lemma DecodeLast(t: string, s: string)
    requires |t| == 4 && DecodeQuad(t) == Some(s)
    ensures Decode(t) == Some(s)
  {
    assert t[..4] == t && t[4..] == "";
    assert s + "" == s;
  }

  lemma DecodeMore(q: string, t: string, s: string)
    requires |q| == 4 && |s| >= 3 && DecodeQuad(q) == Some(s[..3]) && Decode(t) == Some(s[3..])
    ensures Decode(q + t) == Some(s)
  {
    assert (q + t)[..4] == q && (q + t)[4..] == t;
    assert s[..3] + s[3..] == s;
  }

  // ---------------------------------------------------------------- the code bit by bit

  /** The alphabet of table 1 of RFC 4648. */
  lemma Alphabet(v: nat)
    requires v < 64
    ensures var upper, lower, digits := "ABCDEFGHIJKLMNOPQRSTUVWXYZ", "abcdefghijklmnopqrstuvwxyz", "0123456789+/";
            Sextet(if v < 26 then upper[v] else if v < 52 then lower[v-26] else digits[v-52]) == Some(v)
  {
    Upper(v);
    Lower(v);
  }

  lemma Upper(v: nat)
    ensures v < 26 ==> "ABCDEFGHIJKLMNOPQRSTUVWXYZ"[v] == 'A' + v as char
  {
  }

  lemma Lower(v: nat)
    ensures 26 <= v < 52 ==> "abcdefghijklmnopqrstuvwxyz"[v-26] == 'a' + (v - 26) as char
  {
  }

  /** The six bits that a symbol stands for. */
  function Bits(c: char): nat {
    if Sextet(c).Some? then Sextet(c).value else 0
  }

  lemma QuadBits(a: nat, b: nat, c: nat)
    requires a < 256 && b < 256 && c < 256
    ensures var q := Quad(a, b, c);
            && Bits(q[0]) * 262144 + Bits(q[1]) * 4096 + Bits(q[2]) * 64 + Bits(q[3]) == a * 65536 + b * 256 + c
            && Bits(q[0]) * 64 + Bits(q[1]) == a * 16 + b / 16
            && Bits(q[0]) * 4096 + Bits(q[1]) * 64 + Bits(q[2]) == (a * 256 + b) * 4 + c / 64
            && forall k :: 0 <= k < 4 ==> Sextet(q[k]).Some?
  {
    QuadSextets(a, b, c);
  }

  /**
   * Four symbols stand for up to three bytes: the same 24 bits, or fewer with zeros behind them, filled up
   * with `=`.
   */
  predicate Stands(q: string, b: string) {
    && |q| == 4 && Sextet(q[0]).Some? && Sextet(q[1]).Some?
    && match |b|
       case 1 => Bits(q[0]) * 64 + Bits(q[1]) == ByteOf(b[0]) * 16 && q[2] == '=' == q[3]
       case 2 =>
         && Bits(q[0]) * 4096 + Bits(q[1]) * 64 + Bits(q[2]) == (ByteOf(b[0]) * 256 + ByteOf(b[1])) * 4
         && Sextet(q[2]).Some? && q[3] == '='
       case 3 =>
         && Bits(q[0]) * 262144 + Bits(q[1]) * 4096 + Bits(q[2]) * 64 + Bits(q[3]) ==
            ByteOf(b[0]) * 65536 + ByteOf(b[1]) * 256 + ByteOf(b[2])
         && Sextet(q[2]).Some? && Sextet(q[3]).Some?
       case _ => false
  }

  /** Section 4 of RFC 4648: four symbols for each three bytes, and for the one or two bytes left over. */
  lemma {:induction false} EncodeMeaning(s: string, i: nat)
    requires 3 * i < |s|
    ensures |Encode(s)| == 4 * ((|s| + 2) / 3)
    ensures 4 * i + 4 <= |Encode(s)|
    ensures Stands(Encode(s)[4*i..4*i+4], if 3 * i + 3 <= |s| then s[3*i..3*i+3] else s[3*i..])
  {
    EncodeLength(s);
    if i > 0 {
      EncodeMeaning(s[3..], i - 1);
      LaterGroup(s, i);
      BytesOfRest(s, i);
    } else {
      FirstGroup(s);
    }
  }

  lemma LaterGroup(s: string, i: nat)
    requires 0 < i && 3 * i < |s| && 4 * i <= |Encode(s[3..])|
    ensures 4 * i + 4 <= |Encode(s)| && Encode(s)[4*i..4*i+4] == Encode(s[3..])[4*i-4..4*i]
  {
    GroupOfRest(Quad(ByteOf(s[0]), ByteOf(s[1]), ByteOf(s[2])), Encode(s[3..]), 4 * (i - 1));
  }

  lemma {:induction false} EncodeLength(s: string)
    ensures |Encode(s)| == 4 * ((|s| + 2) / 3)
  {
    if |s| > 2 {
      EncodeLength(s[3..]);
      OneGroupMore(s);
    }
  }

  lemma OneGroupMore(s: string)
    requires |s| > 2
    ensures |Encode(s)| == 4 + |Encode(s[3..])| && (|s| + 2) / 3 == 1 + (|s[3..]| + 2) / 3
  {
  }

  lemma FirstGroup(s: string)
    requires s != ""
    ensures |Encode(s)| >= 4 && Stands(Encode(s)[..4], if 3 <= |s| then s[..3] else s)
  {
    QuadBits(ByteOf(s[0]), if |s| > 1 then ByteOf(s[1]) else 0, if |s| > 2 then ByteOf(s[2]) else 0);
  }

  lemma GroupOfRest(q: string, t: string, n: nat)
    requires |q| == 4 && n + 4 <= |t|
    ensures (q + t)[n+4..n+8] == t[n..n+4]
  {
  }

  lemma BytesOfRest(s: string, i: nat)
    requires 0 < i && 3 * i < |s|
    ensures |s| > 3
    ensures 3 * i + 3 <= |s| ==> s[3*i..3*i+3] == s[3..][3*(i-1)..3*(i-1)+3]
    ensures s[3*i..] == s[3..][3*(i-1)..]
  {
    SliceOfRest(s, 3 * i - 3);
    assert 3 * (i - 1) == 3 * i - 3;
  }

  lemma SliceOfRest(s: string, n: nat)
    requires 3 + n <= |s|
    ensures s[3..][n..] == s[n+3..]
    ensures n + 6 <= |s| ==> s[3..][n..n+3] == s[n+3..n+6]
  {
  }
}
