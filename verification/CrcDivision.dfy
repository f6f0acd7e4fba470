/** The checksum as the remainder of a division of polynomials over two elements, coefficients from
    the highest power down. */
module CrcDivision {
  import opened CrcBits
  import opened Crc

  /** The divisor: the leading one that the truncated form leaves out, and the rest. */
  function Divisor(poly: Bits): (g: Bits)
    ensures |g| == |poly| + 1
  {
    [true] + poly
  }

  function Scaled(b: bool, g: Bits): (s: Bits)
    ensures |s| == |g|
  {
    if b then g else Zeros(|g|)
  }

  /** The product of two polynomials. */
  function Product(q: Bits, g: Bits): (p: Bits)
    requires g != []
    ensures |p| == |q| + |g| - 1
  {
    if q == [] then Zeros(|g| - 1)
    else Xor(Scaled(q[0], g) + Zeros(|q| - 1), [false] + Product(q[1..], g))
  }

  /** `quotient` times the divisor, plus `rest`, is the dividend. */
  predicate Divided(dividend: Bits, poly: Bits, quotient: Bits, rest: Bits) {
    && |rest| == |poly| && |dividend| == |quotient| + |poly|
    && dividend == Xor(Product(quotient, Divisor(poly)), Zeros(|quotient|) + rest)
  }

  /** One more coefficient of the quotient. */
  lemma DividedStep(a: bool, dividend: Bits, poly: Bits, quotient: Bits, rest: Bits)
    requires Divided(dividend, poly, quotient, rest)
    ensures Divided(Xor(Scaled(a, Divisor(poly)) + Zeros(|quotient|), [false] + dividend), poly, [a] + quotient, rest)
  {
    var g, q := Divisor(poly), [a] + quotient;
    var lead, p, tail := Scaled(a, g) + Zeros(|quotient|), Product(quotient, g), Zeros(|quotient|) + rest;
    assert q[1..] == quotient && Product(q, g) == Xor(lead, [false] + p);
    assert Zeros(|q|) + rest == [false] + tail;
    assert [false] + Xor(p, tail) == Xor([false] + p, [false] + tail);
    XorAssoc(lead, [false] + p, [false] + tail);
  }

  // ---- bits fed in at the top ----

  /** What is divided: the message with a register's width of zeros, the register added at its top. */
  function Dividend(r: Bits, m: Bits): (d: Bits)
    ensures |d| == |m| + |r|
  {
    Xor(m + Zeros(|r|), r + Zeros(|m|))
  }

  lemma DividendStep(r: Bits, poly: Bits, m: Bits)
    requires |r| == |poly| > 0 && m != []
    ensures Dividend(r, m) == Xor(Scaled(r[0] != m[0], Divisor(poly)) + Zeros(|m| - 1),
                                  [false] + Dividend(Bit(r, poly, m[0]), m[1..]))
  {
    var a, r1, m1 := r[0] != m[0], Bit(r, poly, m[0]), m[1..];
    var lhs, lead, d1 := Dividend(r, m), Scaled(a, Divisor(poly)) + Zeros(|m| - 1), Dividend(r1, m1);
    forall i | 0 <= i < |lhs| ensures lhs[i] == (lead[i] != ([false] + d1)[i]) {
      if i > 0 {
        DividendAt(r, m, i);
        DividendAt(r1, m1, i - 1);
      }
    }
  }

  lemma DividendAt(r: Bits, m: Bits, i: nat)
    requires i < |m| + |r|
    ensures Dividend(r, m)[i] == ((i < |m| && m[i]) != (i < |r| && r[i]))
  {
  }

  /** Feeding a message into the register leaves the remainder of that division. */
  lemma {:induction false} FeedDivides(r: Bits, poly: Bits, m: Bits) returns (quotient: Bits)
    requires |r| == |poly| > 0
    ensures |quotient| == |m| && Divided(Dividend(r, m), poly, quotient, Feed(r, poly, m))
    decreases |m|
  {
    if m == [] {
      quotient := [];
      assert Dividend(r, m) == r == Xor(Zeros(|r|), Zeros(0) + r);
    } else {
      var more := FeedDivides(Bit(r, poly, m[0]), poly, m[1..]);
      DividedStep(r[0] != m[0], Dividend(Bit(r, poly, m[0]), m[1..]), poly, more, Feed(r, poly, m));
      DividendStep(r, poly, m);
      quotient := [r[0] != m[0]] + more;
    }
  }

  // ---- there is only one remainder ----

  lemma LeadIs(poly: Bits, q: Bits, rest: Bits)
    requires q != [] && |rest| == |poly|
    ensures Xor(Product(q, Divisor(poly)), Zeros(|q|) + rest)[0] == q[0]
  {
  }

  lemma XorSame(lead: Bits, x: Bits, y: Bits)
    requires |lead| == |x| == |y| && Xor(lead, x) == Xor(lead, y)
    ensures x == y
  {
    forall i | 0 <= i < |x| ensures x[i] == y[i] { assert Xor(lead, x)[i] == Xor(lead, y)[i]; }
  }

  lemma {:induction false} OnlyOne(dividend: Bits, poly: Bits, q: Bits, rest: Bits, q1: Bits, rest1: Bits)
    requires Divided(dividend, poly, q, rest) && Divided(dividend, poly, q1, rest1)
    ensures q == q1 && rest == rest1
    decreases |q|
  {
    var g := Divisor(poly);
    if q == [] {
      XorSame(Product(q, g), Zeros(0) + rest, Zeros(0) + rest1);
      assert Zeros(0) + rest == rest && Zeros(0) + rest1 == rest1;
    } else {
      LeadIs(poly, q, rest);
      LeadIs(poly, q1, rest1);
      var lead := Scaled(q[0], g) + Zeros(|q| - 1);
      var x := Shorter(poly, q, rest);
      var y := Shorter(poly, q1, rest1);
      XorSame(lead, [false] + x, [false] + y);
      assert x == ([false] + x)[1..] == ([false] + y)[1..] == y;
      OnlyOne(x, poly, q[1..], rest, q1[1..], rest1);
      assert q == [q[0]] + q[1..] && q1 == [q1[0]] + q1[1..];
    }
  }

  /** The dividend without its leading coefficient's share. */
  lemma Shorter(poly: Bits, q: Bits, rest: Bits) returns (d: Bits)
    requires q != [] && |rest| == |poly|
    ensures Divided(d, poly, q[1..], rest)
    ensures Xor(Product(q, Divisor(poly)), Zeros(|q|) + rest)
      == Xor(Scaled(q[0], Divisor(poly)) + Zeros(|q| - 1), [false] + d)
  {
    d := Xor(Product(q[1..], Divisor(poly)), Zeros(|q| - 1) + rest);
    assert q == [q[0]] + q[1..];
    DividedStep(q[0], d, poly, q[1..], rest);
  }

  /** For every register, polynomial and message: what the register holds in the end is the remainder,
      and nothing else is. */
  lemma FeedIsRemainder(r: Bits, poly: Bits, m: Bits, rest: Bits)
    requires |r| == |poly| > 0
    ensures rest == Feed(r, poly, m) <==> exists q :: Divided(Dividend(r, m), poly, q, rest)
  {
    var q := FeedDivides(r, poly, m);
    if q1 :| Divided(Dividend(r, m), poly, q1, rest) {
      OnlyOne(Dividend(r, m), poly, q, Feed(r, poly, m), q1, rest);
    }
  }

  // ---- checksums ----

  /** The bits of a message in the order in which they are divided. */
  function Stream(bytes: seq<Bits>, reflectIn: bool): Bits {
    if bytes == [] then [] else Stream(bytes[..|bytes| - 1], reflectIn) + InOrder(bytes[|bytes| - 1], reflectIn)
  }

  lemma {:induction false} StreamFeeds(r: Bits, poly: Bits, reflectIn: bool, bytes: seq<Bits>)
    requires |r| == |poly| > 0
    ensures FeedBytes(r, poly, reflectIn, bytes) == Feed(r, poly, Stream(bytes, reflectIn))
  {
    if bytes != [] {
      var front, last := bytes[..|bytes| - 1], InOrder(bytes[|bytes| - 1], reflectIn);
      StreamFeeds(r, poly, reflectIn, front);
      FeedConcat(r, poly, Stream(front, reflectIn), last);
    }
  }

  /** Both checksums are the one remainder, in the wanted order and with the final mask: for every
      width, polynomial, initial remainder, mask, both reflections and every message. */
  lemma ChecksumIsRemainder(poly: Bits, init: Bits, final: Bits, reflectIn: bool, reflectRem: bool, bytes: seq<Bits>)
      returns (rest: Bits)
    requires |poly| == |init| == |final| > 0 && AreBytes(bytes)
    ensures |rest| == |poly|
    ensures exists q :: Divided(Dividend(init, Stream(bytes, reflectIn)), poly, q, rest)
    ensures BasicSum(poly, init, final, reflectIn, reflectRem, bytes) == Xor(InOrder(rest, reflectRem), final)
    ensures OptimalSum(poly, init, final, reflectIn, reflectRem, bytes) == Xor(InOrder(rest, reflectRem), final)
  {
    rest := FeedBytes(init, poly, reflectIn, bytes);
    StreamFeeds(init, poly, reflectIn, bytes);
    FeedIsRemainder(init, poly, Stream(bytes, reflectIn), rest);
    OptimalIsBasic(poly, init, final, reflectIn, reflectRem, bytes);
  }
}
