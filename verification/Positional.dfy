/** What a row of digits stands for in a positional system. */
module Positional {
  function Pow(base: nat, n: nat): nat { if n == 0 then 1 else base * Pow(base, n - 1) }

  /** The first digit counts most. */
  function Weighted(digits: seq<nat>, base: nat): nat {
    if digits == [] then 0 else digits[0] * Pow(base, |digits| - 1) + Weighted(digits[1..], base)
  }

  /** Reading digit by digit from the left gives the same number. */
  lemma {:induction false} WeightedLast(digits: seq<nat>, base: nat)
    requires digits != []
    ensures Weighted(digits, base) == base * Weighted(digits[..|digits| - 1], base) + digits[|digits| - 1]
  {
    var n, init := |digits|, digits[..|digits| - 1];
    if n > 1 {
      var rest := digits[1..];
      WeightedLast(rest, base);
      assert rest[..n - 2] == init[1..];
      assert Pow(base, n - 1) == base * Pow(base, n - 2);
      var first, low := digits[0], Weighted(init[1..], base);
      assert Weighted(init, base) == first * Pow(base, n - 2) + low;
      Distribute(base, first, Pow(base, n - 2), low);
    }
  }

  lemma Distribute(a: nat, b: nat, c: nat, d: nat)
    ensures a * (b * c + d) == b * (a * c) + a * d
  {
  }
}
