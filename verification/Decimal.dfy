/** Decimal text and the numbers it stands for. */
module Decimal {

  function Pow10(k: nat): (p: nat)
    ensures p >= 1
  {
    if k == 0 then 1 else 10 * Pow10(k - 1)
  }

  predicate IsDigit(c: char) { '0' <= c <= '9' }

  function DigitOf(c: char): int { c as int - '0' as int }

  function DigitChar(d: nat): (c: char)
    requires d < 10
    ensures IsDigit(c) && DigitOf(c) == d
  {
    ('0' as int + d) as char
  }

  predicate AllDigits(s: string) { forall i :: 0 <= i < |s| ==> IsDigit(s[i]) }

  /** The number written by `s`; characters other than digits count with whatever they are worth. */
  function Val(s: string): int {
    if s == [] then 0 else DigitOf(s[0]) * Pow10(|s| - 1) + Val(s[1..])
  }

  lemma {:induction false} ValNonNegative(s: string)
    requires AllDigits(s)
    ensures 0 <= Val(s) < Pow10(|s|)
  {
    if s != [] {
      ValNonNegative(s[1..]);
      MulMonotone(DigitOf(s[0]), 9, Pow10(|s| - 1));
      MulMonotone(0, DigitOf(s[0]), Pow10(|s| - 1));
    }
  }

  /** Dropping leading digits never makes the number larger. */
  lemma {:induction false} ValSuffix(s: string, i: nat)
    requires AllDigits(s) && i <= |s|
    ensures Val(s[i..]) <= Val(s)
  {
    if i == 0 {
      assert s[0..] == s;
    } else {
      ValNonNegative(s);
      assert s[1..][i - 1..] == s[i..];
      ValSuffix(s[1..], i - 1);
      MulMonotone(0, DigitOf(s[0]), Pow10(|s| - 1));
    }
  }

  lemma {:induction false} ValSnoc(s: string, c: char)
    ensures Val(s + [c]) == 10 * Val(s) + DigitOf(c)
  {
    if s == [] {
      assert s + [c] == [c];
      assert Val([c]) == DigitOf(c) * Pow10(0) + Val([c][1..]);
    } else {
      assert (s + [c])[1..] == s[1..] + [c];
      ValSnoc(s[1..], c);
      assert DigitOf(s[0]) * Pow10(|s|) == 10 * (DigitOf(s[0]) * Pow10(|s| - 1));
    }
  }

  /** The digits of `n` without leading zeros. */
  function Plain(n: nat): (s: string)
    ensures |s| > 0 && AllDigits(s)
  {
    if n < 10 then [DigitChar(n)] else Plain(n / 10) + [DigitChar(n % 10)]
  }

  lemma {:induction false} ValPlain(n: nat)
    ensures Val(Plain(n)) == n
  {
    if n < 10 {
      assert Plain(n)[1..] == [];
    } else {
      ValPlain(n / 10);
      ValSnoc(Plain(n / 10), DigitChar(n % 10));
    }
  }

  lemma {:induction false} PlainLength(n: nat, k: nat)
    requires n < Pow10(k) && k > 0
    ensures |Plain(n)| <= k
  {
    if n >= 10 { PlainLength(n / 10, k - 1); }
  }

  lemma MulMonotone(a: int, b: int, d: nat)
    ensures a <= b ==> a * d <= b * d
  {
  }

  /** A product taken modulo `m` and divided back shows whether it was too large. */
  lemma WrapShows(a: nat, d: nat, m: nat)
    requires a < m && d > 0
    ensures ((a * d) % m) / d != a <==> a * d >= m
  {
    WrapBelow(a * d, m);
    DivExact(a, d);
    var x := (a * d) % m;
    if a * d >= m { DivBelow(x, a, d); }
  }

  lemma WrapBelow(x: nat, m: nat)
    requires m > 0
    ensures x < m ==> x % m == x
    ensures x >= m ==> x % m < x
  {
  }

  lemma DivExact(a: nat, d: nat)
    requires d > 0
    ensures (a * d) / d == a
  {
    DivBetween(a * d, a, d);
  }

  /** Fewer than `a` times `d` goes fewer than `a` times into `d`. */
  lemma DivBelow(x: nat, a: nat, d: nat)
    requires d > 0 && x < a * d
    ensures x / d < a
  {
    if x / d >= a { MulMonotone(a, x / d, d); }
  }

  lemma DivBetween(x: nat, a: nat, d: nat)
    requires d > 0 && a * d <= x < a * d + d
    ensures x / d == a
  {
    if x / d > a { MulMonotone(a + 1, x / d, d); }
    if x / d < a { MulMonotone(x / d + 1, a, d); }
  }
}
