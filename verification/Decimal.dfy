/** Results, and the decimal conversions of Go's `strconv`. */
module Decimal {
  import opened Text

  datatype Option<T> = None | Some(value: T)

  datatype Result<T> = Ok(value: T) | Err(message: string) {
    predicate IsFailure() {
      Err?
    }

    function PropagateFailure<U>(): (r: Result<U>)
      requires Err?
    {
      Err(message)
    }

    function Extract(): T
      requires Ok?
    {
      value
    }
  }

  const MAX_INT := 0x7FFF_FFFF_FFFF_FFFF

  predicate IsDigit(c: char) {
    '0' <= c <= '9'
  }

  predicate AllDigits(s: string) {
    forall i :: 0 <= i < |s| ==> IsDigit(s[i])
  }

  function DigitChar(d: nat): char
    requires d < 10
  {
    '0' + d as char
  }

  /** `strconv.Itoa` of a non-negative number. */
  function Itoa(n: nat): (s: string)
    ensures s != "" && AllDigits(s) && NoDollar(s)
  {
    if n < 10 then [DigitChar(n)] else Itoa(n / 10) + [DigitChar(n % 10)]
  }

  function DigitsValue(s: string): nat
    requires AllDigits(s)
  {
    if s == "" then 0
    else
      assert forall i :: 0 <= i < |s| - 1 ==> s[..|s|-1][i] == s[i];
      10 * DigitsValue(s[..|s|-1]) + (s[|s|-1] as int - '0' as int)
  }

  /** `strconv.Atoi`: an optional sign, digits, and a value that fits in 64 bits. */
  function Atoi(s: string): Option<int> {
    var signed := s != "" && (s[0] == '-' || s[0] == '+');
    var digits := if signed then s[1..] else s;
    if digits == "" || !AllDigits(digits) then None
    else if signed && s[0] == '-' then
      var n: int := DigitsValue(digits);
      if n <= MAX_INT + 1 then Some(-n) else None
    else if DigitsValue(digits) <= MAX_INT then Some(DigitsValue(digits))
    else None
  }

  lemma {:induction false} ItoaValue(n: nat)
    ensures DigitsValue(Itoa(n)) == n
  {
    if n >= 10 {
      ItoaValue(n / 10);
      assert Itoa(n)[..|Itoa(n)|-1] == Itoa(n / 10);
    }
  }

  lemma ItoaInjective(m: nat, n: nat)
    requires Itoa(m) == Itoa(n)
    ensures m == n
  {
    ItoaValue(m);
    ItoaValue(n);
  }

  // ---------------------------------------------------------------- numerals

  /** Decimal numerals: one digit each below ten, and one digit more for every factor of ten. */
  lemma NumeralOf(n: nat, d: nat)
    requires d < 10
    ensures Itoa(d) == ["0123456789"[d]]
    ensures n > 0 ==> Itoa(10 * n + d) == Itoa(n) + ["0123456789"[d]]
  {
    DigitIs(d);
    assert (10 * n + d) / 10 == n && (10 * n + d) % 10 == d;
  }

  lemma DigitIs(d: nat)
    requires d < 10
    ensures DigitChar(d) == "0123456789"[d]
  {
  }

  function Zeros(k: nat): (s: string)
    ensures |s| == k && AllDigits(s) && forall i :: 0 <= i < k ==> s[i] == '0'
  {
    if k == 0 then "" else "0" + Zeros(k - 1)
  }

  lemma {:induction false} LeadingZero(s: string)
    requires AllDigits(s)
    ensures AllDigits("0" + s) && DigitsValue("0" + s) == DigitsValue(s)
  {
    if s != "" {
      var init := s[..|s|-1];
      assert ("0" + s)[..|s|] == "0" + init;
      LeadingZero(init);
    }
  }

  lemma {:induction false} ZerosValue(k: nat, s: string)
    requires AllDigits(s)
    ensures AllDigits(Zeros(k) + s) && DigitsValue(Zeros(k) + s) == DigitsValue(s)
  {
    if k == 0 {
      assert Zeros(0) + s == s;
    } else {
      ZerosValue(k - 1, s);
      LeadingZero(Zeros(k - 1) + s);
      assert Zeros(k) + s == "0" + (Zeros(k - 1) + s);
    }
  }

  /**
   * A numeral, with zeros before it or not, is read as its number if that fits in 64 bits, and is an error
   * otherwise.
   */
  lemma AtoiOfNumeral(k: nat, n: nat)
    ensures Atoi(Zeros(k) + Itoa(n)) == if n <= 9_223_372_036_854_775_807 then Some(n) else None
    ensures Atoi("+" + (Zeros(k) + Itoa(n))) == if n <= 9_223_372_036_854_775_807 then Some(n) else None
    ensures var r := Atoi("-" + (Zeros(k) + Itoa(n)));
            if n <= 9_223_372_036_854_775_808 then r.Some? && r.value + n == 0 else r.None?
  {
    var s := Zeros(k) + Itoa(n);
    NumeralValue(k, n);
    AtoiOfDigits(s);
    AtoiOfSigned('+', s);
    AtoiOfSigned('-', s);
  }

  lemma NumeralValue(k: nat, n: nat)
    ensures var s := Zeros(k) + Itoa(n); s != "" && AllDigits(s) && DigitsValue(s) == n
  {
    ItoaValue(n);
    ZerosValue(k, Itoa(n));
  }

  lemma AtoiOfDigits(s: string)
    requires s != "" && AllDigits(s)
    ensures Atoi(s) == if DigitsValue(s) <= 9_223_372_036_854_775_807 then Some(DigitsValue(s)) else None
  {
    assert IsDigit(s[0]);
  }

  lemma AtoiOfSigned(sign: char, s: string)
    requires s != "" && AllDigits(s) && (sign == '+' || sign == '-')
    ensures sign == '+' ==> Atoi([sign] + s) == Atoi(s)
    ensures sign == '-' ==> var r := Atoi([sign] + s);
              if DigitsValue(s) <= 9_223_372_036_854_775_808 then r.Some? && r.value + DigitsValue(s) == 0
              else r.None?
  {
    AtoiOfDigits(s);
    assert ([sign] + s)[0] == sign && ([sign] + s)[1..] == s;
  }

  /** Nothing but a numeral behind an optional sign is a number. */
  lemma AtoiRejects(s: string)
    ensures s == "" || s == "+" || s == "-" ==> Atoi(s).None?
    ensures (exists i :: 1 <= i < |s| && !('0' <= s[i] <= '9')) ==> Atoi(s).None?
    ensures s != "" && s[0] != '+' && s[0] != '-' && !('0' <= s[0] <= '9') ==> Atoi(s).None?
  {
    if i :| 1 <= i < |s| && !('0' <= s[i] <= '9') {
      assert s[1..][i-1] == s[i];
    }
  }
}
