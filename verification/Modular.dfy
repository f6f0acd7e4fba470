/** Remainders. */
module Modular {

  lemma ModStep(p: nat, n: nat, i: nat)
    requires n > 0 && i < n
    ensures (p + i) % n == if p % n + i < n then p % n + i else p % n + i - n
  {
    var q, r := p / n, p % n;
    assert p == n * q + r;
    if r + i < n {
      ModUnique(p + i, n, q, r + i);
    } else {
      assert n * (q + 1) == n * q + n;
      ModUnique(p + i, n, q + 1, r + i - n);
    }
  }

  lemma ModUnique(x: int, n: nat, q: int, r: nat)
    requires n > 0 && x == n * q + r && r < n
    ensures x % n == r
  {
    var d := x / n - q;
    Distribute(n, q, d);
    SmallMultiple(n, d);
  }

  lemma SmallMultiple(n: nat, d: int)
    requires 0 - n < n * d < n
    ensures d == 0
  {
  }

  lemma ModSame(p: nat, n: nat, i: nat)
    requires n > 0
    ensures (p + i) % n == (p % n + i) % n
  {
    var x := p % n + i;
    Distribute(n, p / n, x / n);
    ModUnique(p + i, n, p / n + x / n, x % n);
  }

  lemma Distribute(n: nat, a: int, b: int)
    ensures n * (a + b) == n * a + n * b
  {
  }
}
