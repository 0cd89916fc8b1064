/** Decimal numerals as strconv.Itoa writes them and strconv.Atoi reads them. */
module Decimal {
  import opened Positional
  import opened Prelude

  type Int64 = i: int | -0x8000_0000_0000_0000 <= i < 0x8000_0000_0000_0000

  predicate IsDigit(c: char) { '0' <= c <= '9' }

  predicate AllDigits(s: string) { s != "" && forall c <- s :: IsDigit(c) }

  function DigitChar(d: nat): char
    requires d < 10
  {
    ('0' as int + d) as char
  }

  function DigitsOf(n: nat): string {
    if n < 10 then [DigitChar(n)] else DigitsOf(n / 10) + [DigitChar(n % 10)]
  }

  function ValueOf(s: string): nat
    requires forall c <- s :: IsDigit(c)
  {
    if s == "" then 0
    else
      var last := s[|s| - 1];
      assert IsDigit(last);
      10 * ValueOf(s[..|s| - 1]) + (last as int - '0' as int)
  }

  function Itoa(n: int): string { if n < 0 then "-" + DigitsOf(-n) else DigitsOf(n) }

  function InRange(n: int): Option<Int64> {
    if -0x8000_0000_0000_0000 <= n < 0x8000_0000_0000_0000 then Some(n) else None
  }

  /** Atoi: an optional sign, then digits, within the range of a 64-bit int. */
  function Atoi(s: string): Option<Int64> {
    if s != "" && (s[0] == '-' || s[0] == '+') then
      if !AllDigits(s[1..]) then None
      else
        var v: int := ValueOf(s[1..]);
        InRange(if s[0] == '-' then -v else v)
    else if AllDigits(s) then InRange(ValueOf(s))
    else None
  }

  lemma {:induction false} DigitsRoundTrip(n: nat)
    ensures AllDigits(DigitsOf(n)) && ValueOf(DigitsOf(n)) == n
  {
    if n >= 10 {
      DigitsRoundTrip(n / 10);
      var all := DigitsOf(n);
      assert all[..|all| - 1] == DigitsOf(n / 10);
    }
  }

  lemma AtoiOfItoa(n: Int64)
    ensures Atoi(Itoa(n)) == Some(n)
  {
    if n < 0 {
      var v: int := n;
      DigitsRoundTrip(-v);
      assert Itoa(n)[1..] == DigitsOf(-v);
    } else {
      DigitsRoundTrip(n);
      assert IsDigit(DigitsOf(n)[0]);
    }
  }

  // ---------- what these functions mean ----------

  /** The numbers the digits stand for. */
  function DigitValues(s: string): seq<nat>
    requires forall c <- s :: IsDigit(c)
  {
    seq(|s|, i requires 0 <= i < |s| => DigitValue(s[i]))
  }

  function DigitValue(c: char): nat
    requires IsDigit(c)
  {
    c as int - '0' as int
  }

  lemma {:induction false} ValueIsPositional(s: string)
    requires forall c <- s :: IsDigit(c)
    ensures ValueOf(s) == Weighted(DigitValues(s), 10)
  {
    if s != "" {
      var init := s[..|s| - 1];
      ValueIsPositional(init);
      WeightedLast(DigitValues(s), 10);
      assert DigitValues(s)[..|s| - 1] == DigitValues(init);
    }
  }

  predicate IsSign(s: string) { s == "" || s == "+" || s == "-" }

  function Signed(sign: string, v: int): int { if sign == "-" then -v else v }

  /** `s` is a numeral for `n`: at most one sign, then digits of which the first counts most. */
  ghost predicate Numeral(s: string, n: int) {
    exists sign, digits ::
      && IsSign(sign) && AllDigits(digits) && s == sign + digits
      && n == Signed(sign, Weighted(DigitValues(digits), 10))
  }

  lemma AtoiReads(s: string, n: Int64)
    requires Atoi(s) == Some(n)
    ensures Numeral(s, n)
  {
    hide Weighted, DigitValues;
    var signed := s[0] == '-' || s[0] == '+';
    var sign, digits := if signed then s[..1] else "", if signed then s[1..] else s;
    assert s == sign + digits && AllDigits(digits);
    ValueIsPositional(digits);
    assert n == Signed(sign, Weighted(DigitValues(digits), 10));
  }

  lemma UnsignedIsRead(digits: string)
    requires AllDigits(digits)
    ensures Atoi(digits) == InRange(ValueOf(digits))
  {
    assert digits[0] in digits && IsDigit(digits[0]);
    hide ValueOf, InRange;
  }

  lemma SignedIsRead(sign: char, digits: string)
    requires (sign == '+' || sign == '-') && AllDigits(digits)
    ensures Atoi([sign] + digits) == InRange(Signed([sign], ValueOf(digits)))
  {
    hide ValueOf, InRange;
    assert ([sign] + digits)[1..] == digits;
  }

  lemma NumeralIsRead(sign: string, digits: string)
    requires IsSign(sign) && AllDigits(digits)
    ensures Atoi(sign + digits) == InRange(Signed(sign, Weighted(DigitValues(digits), 10)))
  {
    ValueIsPositional(digits);
    hide Atoi, Weighted, DigitValues, ValueOf, InRange, AllDigits;
    if sign == "" {
      UnsignedIsRead(digits);
      assert sign + digits == digits;
    } else {
      SignedIsRead(sign[0], digits);
      assert sign == [sign[0]];
    }
  }

  /** Atoi reads the numerals of 64-bit numbers, and nothing else. */
  lemma AtoiExactly(s: string, n: Int64)
    ensures Atoi(s) == Some(n) <==> Numeral(s, n)
  {
    if Atoi(s) == Some(n) {
      AtoiReads(s, n);
    }
    hide Atoi, Weighted, DigitValues;
    if Numeral(s, n) {
      var sign, digits :| IsSign(sign) && AllDigits(digits) && s == sign + digits
                       && n == Signed(sign, Weighted(DigitValues(digits), 10));
      NumeralIsRead(sign, digits);
    }
  }
}
