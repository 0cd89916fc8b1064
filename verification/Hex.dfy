/** 16-bit words carried as hex text: HexWord of internal/config/model.go. */
module Hex {
  import opened Positional
  import opened Prelude
  import opened Text

  type Word16 = w: int | 0 <= w < 0x1_0000

  function HexChar(d: nat): char
    requires d < 16
  {
    if d < 10 then ('0' as int + d) as char else ('A' as int + d - 10) as char
  }

  /** The digit a lowercase hex character stands for. */
  function HexDigit(c: char): Option<nat> {
    if '0' <= c <= '9' then Some(c as int - '0' as int)
    else if 'a' <= c <= 'f' then Some(c as int - 'a' as int + 10)
    else None
  }

  /** The number written by hex digits, without a bound. */
  function ParseHex(s: string): Option<nat> {
    if s == "" then Some(0)
    else
      match (ParseHex(s[..|s| - 1]), HexDigit(s[|s| - 1]))
      case (Some(high), Some(low)) => Some(16 * high + low)
      case _ => None
  }

  function WithoutPrefix(s: string): string { if HasPrefix(s, "0x") then s[2..] else s }

  /** HexWord.Value: spaces around it, case and a 0x prefix do not matter. */
  function Value(h: string): Option<Word16> {
    var digits := WithoutPrefix(Lower(Trim(h)));
    if digits == "" then None
    else
      match ParseHex(digits)
      case Some(n) => if n < 0x1_0000 then Some(n) else None
      case None => None
  }

  /** The four-digit form. */
  function Format(w: Word16): (s: string)
    ensures |s| == 4
  {
    [HexChar(w / 0x1000), HexChar(w / 0x100 % 16), HexChar(w / 0x10 % 16), HexChar(w % 16)]
  }

  /** canonical: a usable word in any case, and whether the text was acceptable. */
  function CanonicalWord(h: string, default: string): (string, bool) {
    if Trim(h) == "" then (default, true)
    else
      match Value(h)
      case None => (default, false)
      case Some(w) => (Format(w), true)
  }

  lemma HexCharRoundTrip(d: nat)
    requires d < 16
    ensures HexDigit(LowerChar(HexChar(d))) == Some(d)
    ensures !IsSpace(HexChar(d)) && LowerChar(HexChar(d)) != 'x'
  {
  }

  lemma ParseFour(a: nat, b: nat, c: nat, d: nat)
    requires a < 16 && b < 16 && c < 16 && d < 16
    ensures ParseHex(Lower([HexChar(a), HexChar(b), HexChar(c), HexChar(d)])) ==
              Some(0x1000 * a + 0x100 * b + 0x10 * c + d)
  {
    HexCharRoundTrip(a);
    HexCharRoundTrip(b);
    HexCharRoundTrip(c);
    HexCharRoundTrip(d);
    var s := Lower([HexChar(a), HexChar(b), HexChar(c), HexChar(d)]);
    assert s[..3][..2] == s[..2] && s[..2][..1] == s[..1] && s[..1][..0] == "";
    assert ParseHex(s[..1]) == Some(a);
    assert ParseHex(s[..2]) == Some(16 * a + b);
    assert ParseHex(s[..3]) == Some(256 * a + 16 * b + c);
  }

  lemma Quotients(w: Word16)
    ensures w / 0x100 == w / 0x10 / 0x10 && w / 0x1000 == w / 0x100 / 0x10
  {
  }

  lemma DigitSum(w: Word16)
    ensures 0x1000 * (w / 0x1000) + 0x100 * (w / 0x100 % 16) + 0x10 * (w / 0x10 % 16) + w % 16 == w
  {
    Quotients(w);
    var q, r := w / 0x10, w / 0x100;
    assert w == 0x10 * q + w % 16 && q == 0x10 * r + q % 16 && r == 0x10 * (w / 0x1000) + r % 16;
  }

  lemma FormatIsPlain(w: Word16)
    ensures Trim(Format(w)) == Format(w) && WithoutPrefix(Lower(Format(w))) == Lower(Format(w))
  {
    var s := Format(w);
    HexCharRoundTrip(w / 0x1000);
    HexCharRoundTrip(w / 0x100 % 16);
    HexCharRoundTrip(w % 16);
    TrimTrims(s);
    assert Lower(s)[1] != "0x"[1];
  }

  /** The four-digit form reads back as its value. */
  lemma FormatRoundTrip(w: Word16)
    ensures Value(Format(w)) == Some(w)
  {
    FormatIsPlain(w);
    DigitSum(w);
    ParseFour(w / 0x1000, w / 0x100 % 16, w / 0x10 % 16, w % 16);
    hide ParseHex, WithoutPrefix, Trim;
  }

  predicate IsCanonicalWord(h: string) { Value(h).Some? && h == Format(Value(h).value) }

  /** canonical always gives a canonical word if the default is one, and leaves canonical words alone. */
  lemma CanonicalWordIsStable(h: string, default: string)
    requires IsCanonicalWord(default)
    ensures IsCanonicalWord(CanonicalWord(h, default).0)
    ensures IsCanonicalWord(h) ==> CanonicalWord(h, default) == (h, true)
  {
    if Value(h).Some? {
      FormatRoundTrip(Value(h).value);
      FormatIsPlain(Value(h).value);
    }
  }

  // ---------- what Value reads ----------

  /** What a character counts as a hex digit, small or capital. */
  function DigitValue(c: char): Option<nat> {
    if '0' <= c <= '9' then Some(c as int - '0' as int)
    else if 'a' <= c <= 'f' then Some(10 + (c as int - 'a' as int))
    else if 'A' <= c <= 'F' then Some(10 + (c as int - 'A' as int))
    else None
  }

  predicate AllHex(s: string) { forall i :: 0 <= i < |s| ==> DigitValue(s[i]).Some? }

  function DigitValues(s: string): seq<nat>
    requires AllHex(s)
  {
    seq(|s|, i requires 0 <= i < |s| => DigitValue(s[i]).value)
  }

  lemma DigitsInAnyCase(c: char)
    ensures HexDigit(LowerChar(c)) == DigitValue(c)
  {
  }

  lemma {:induction false} ParseIsPositional(s: string)
    ensures ParseHex(Lower(s)) == if AllHex(s) then Some(Weighted(DigitValues(s), 16)) else None
  {
    if s != "" {
      var init, last := s[..|s| - 1], s[|s| - 1];
      ParseIsPositional(init);
      assert Lower(s)[..|s| - 1] == Lower(init);
      DigitsInAnyCase(last);
      if AllHex(s) {
        WeightedLast(DigitValues(s), 16);
        assert DigitValues(s)[..|s| - 1] == DigitValues(init);
      } else if AllHex(init) {
        assert DigitValue(last).None?;
      }
    }
  }

  predicate IsPrefix(s: string) { s == "" || s == "0x" || s == "0X" }

  /** `h` writes `w`: blanks around it do not matter, a prefix and hex digits in any case, the first counting most. */
  ghost predicate Writes(h: string, w: Word16) {
    exists left, prefix, digits, right ::
      && Blank(left) && IsPrefix(prefix) && digits != "" && AllHex(digits) && Blank(right)
      && h == left + (prefix + digits) + right && w == Weighted(DigitValues(digits), 16)
  }

  lemma LowerOfPrefixed(t: string)
    ensures HasPrefix(Lower(t), "0x") <==> |t| >= 2 && IsPrefix(t[..2])
  {
    if |t| >= 2 {
      assert Lower(t)[..2] == [LowerChar(t[0]), LowerChar(t[1])] && t[..2] == [t[0], t[1]];
      assert "0x" <= Lower(t) <==> Lower(t)[0] == '0' && Lower(t)[1] == 'x';
    }
  }

  lemma ValueIsWritten(h: string)
    requires Value(h).Some?
    ensures Writes(h, Value(h).value)
  {
    var t := Trim(h);
    TrimExactly(h, t);
    var left, right :| Blank(left) && Blank(right) && h == left + t + right;
    LowerOfPrefixed(t);
    var prefix := if HasPrefix(Lower(t), "0x") then t[..2] else "";
    var digits := t[|prefix|..];
    assert prefix + digits == t && IsPrefix(prefix);
    DigitsRead(t, prefix, digits);
    hide Value, Trim, Lower, ParseHex, Weighted, DigitValues, AllHex, Blank, HasPrefix;
    assert h == left + (prefix + digits) + right;
  }

  lemma DigitsRead(t: string, prefix: string, digits: string)
    requires t == prefix + digits && prefix == if HasPrefix(Lower(t), "0x") then t[..2] else ""
    ensures WithoutPrefix(Lower(t)) == Lower(digits) && (Lower(digits) == "" <==> digits == "")
    ensures ParseHex(Lower(digits)) == if AllHex(digits) then Some(Weighted(DigitValues(digits), 16)) else None
  {
    LowerOfSuffix(t, |prefix|);
    assert t[|prefix|..] == digits && Lower(t)[0..] == Lower(t);
    ParseIsPositional(digits);
    hide Lower, ParseHex, Weighted, DigitValues, AllHex;
  }

  lemma WrittenIsRead(left: string, prefix: string, digits: string, right: string)
    requires Blank(left) && IsPrefix(prefix) && digits != "" && AllHex(digits) && Blank(right)
    ensures var n := Weighted(DigitValues(digits), 16);
            Value(left + (prefix + digits) + right) == if n < 0x1_0000 then Some(n) else None
  {
    var t := prefix + digits;
    assert Trimmed(t) by {
      assert DigitValue(digits[0]).Some? && DigitValue(digits[|digits| - 1]).Some?;
    }
    TrimStrips(left, t, right);
    LowerOfPrefixed(t);
    assert HasPrefix(Lower(t), "0x") <==> prefix != "" by {
      if prefix == "" && |t| >= 2 {
        assert t[1] == digits[1] && DigitValue(digits[1]).Some?;
      } else if prefix != "" {
        assert t[..2] == prefix;
      }
    }
    LowerOfSuffix(t, |prefix|);
    assert t[|prefix|..] == digits && Lower(t)[0..] == Lower(t);
    ParseIsPositional(digits);
    hide Trim, Lower, ParseHex, Weighted, DigitValues, AllHex, Blank, HasPrefix;
  }

  /** Value reads exactly the texts that write a 16-bit word, as that word. */
  lemma ValueExactly(h: string, w: Word16)
    ensures Value(h) == Some(w) <==> Writes(h, w)
  {
    if Value(h) == Some(w) {
      ValueIsWritten(h);
    }
    if Writes(h, w) {
      var left, prefix, digits, right :|
        && Blank(left) && IsPrefix(prefix) && digits != "" && AllHex(digits) && Blank(right)
        && h == left + (prefix + digits) + right && w == Weighted(DigitValues(digits), 16);
      WrittenIsRead(left, prefix, digits, right);
    }
  }

  predicate NoSmallLetter(s: string) { forall i :: 0 <= i < |s| ==> !('a' <= s[i] <= 'f') }

  lemma SameDigit(c: char, d: char)
    requires DigitValue(c).Some? && DigitValue(c) == DigitValue(d) && !('a' <= c <= 'f') && !('a' <= d <= 'f')
    ensures c == d
  {
  }

  lemma SameDigits(a: nat, b: nat, c: nat, d: nat, e: nat, f: nat, g: nat, h: nat)
    requires a < 16 && b < 16 && c < 16 && d < 16 && e < 16 && f < 16 && g < 16 && h < 16
    requires 0x1000 * a + 0x100 * b + 0x10 * c + d == 0x1000 * e + 0x100 * f + 0x10 * g + h
    ensures a == e && b == f && c == g && d == h
  {
  }

  lemma SameNumeral(s: string, t: string)
    requires |s| == 4 && AllHex(s) && NoSmallLetter(s) && |t| == 4 && AllHex(t) && NoSmallLetter(t)
    requires Weighted(DigitValues(s), 16) == Weighted(DigitValues(t), 16)
    ensures s == t
  {
    FourDigits(s);
    FourDigits(t);
    var d, e := DigitValues(s), DigitValues(t);
    hide Weighted;
    SameDigits(d[0], d[1], d[2], d[3], e[0], e[1], e[2], e[3]);
    forall i | 0 <= i < 4 ensures s[i] == t[i] {
      SameDigit(s[i], t[i]);
    }
  }

  /** And writes a word with four digits, the letters capital. */
  lemma FormatExactly(w: Word16, s: string)
    ensures Format(w) == s <==> |s| == 4 && AllHex(s) && NoSmallLetter(s) && Weighted(DigitValues(s), 16) == w
  {
    FormatReads(w);
    hide Format, AllHex, NoSmallLetter, Weighted, DigitValues;
    if |s| == 4 && AllHex(s) && NoSmallLetter(s) && Weighted(DigitValues(s), 16) == w {
      SameNumeral(Format(w), s);
    }
  }

  lemma FourDigits(s: string)
    requires |s| == 4 && AllHex(s)
    ensures var d := DigitValues(s);
            && Weighted(d, 16) == 0x1000 * d[0] + 0x100 * d[1] + 0x10 * d[2] + d[3]
            && d[0] < 16 && d[1] < 16 && d[2] < 16 && d[3] < 16
  {
    var d := DigitValues(s);
    assert Pow(16, 1) == 16 && Pow(16, 2) == 0x100 && Pow(16, 3) == 0x1000;
    assert d[1..][1..] == d[2..] && d[2..][1..] == d[3..] && d[3..][1..] == [];
    assert Weighted(d[3..], 16) == d[3];
    assert Weighted(d[2..], 16) == 0x10 * d[2] + d[3];
    assert Weighted(d[1..], 16) == 0x100 * d[1] + 0x10 * d[2] + d[3];
  }

  lemma HexCharCounts(d: nat)
    requires d < 16
    ensures DigitValue(HexChar(d)) == Some(d) && !('a' <= HexChar(d) <= 'f')
  {
  }

  lemma FormatReads(w: Word16)
    ensures AllHex(Format(w)) && NoSmallLetter(Format(w)) && Weighted(DigitValues(Format(w)), 16) == w
  {
    HexCharCounts(w / 0x1000);
    HexCharCounts(w / 0x100 % 16);
    HexCharCounts(w / 0x10 % 16);
    HexCharCounts(w % 16);
    hide HexChar, DigitValue;
    FourDigits(Format(w));
    DigitSum(w);
  }
}
