/** Remainders as bit sequences, most significant bit first, and division one bit at a time. */
module CrcBits {

  type Bits = seq<bool>

  function Zeros(n: nat): (z: Bits)
    ensures |z| == n
  {
    seq(n, i => false)
  }

  function Xor(a: Bits, b: Bits): (c: Bits)
    requires |a| == |b|
    ensures |c| == |a|
  {
    seq(|a|, i requires 0 <= i < |a| => a[i] != b[i])
  }

  function Rev(a: Bits): (r: Bits)
    ensures |r| == |a|
  {
    seq(|a|, i requires 0 <= i < |a| => a[|a| - 1 - i])
  }

  lemma RevTwice(a: Bits)
    ensures Rev(Rev(a)) == a
  {
  }

  lemma RevXor(a: Bits, b: Bits)
    requires |a| == |b|
    ensures Rev(Xor(a, b)) == Xor(Rev(a), Rev(b))
  {
  }

  /** Division by the polynomial with the truncated form `poly`, one message bit. */
  function Bit(r: Bits, poly: Bits, b: bool): (q: Bits)
    requires |r| == |poly| > 0
    ensures |q| == |r|
  {
    var s := r[1..] + [false];
    if r[0] != b then Xor(s, poly) else s
  }

  function Feed(r: Bits, poly: Bits, bits: Bits): (q: Bits)
    requires |r| == |poly| > 0
    ensures |q| == |r|
    decreases |bits|
  {
    if bits == [] then r else Feed(Bit(r, poly, bits[0]), poly, bits[1..])
  }

  lemma {:induction false} FeedConcat(r: Bits, poly: Bits, x: Bits, y: Bits)
    requires |r| == |poly| > 0
    ensures Feed(r, poly, x + y) == Feed(Feed(r, poly, x), poly, y)
    decreases |x|
  {
    if x == [] {
      assert x + y == y;
    } else {
      assert (x + y)[1..] == x[1..] + y;
      FeedConcat(Bit(r, poly, x[0]), poly, x[1..], y);
    }
  }

  lemma BitLinear(r: Bits, s: Bits, poly: Bits, b: bool, c: bool)
    requires |r| == |s| == |poly| > 0
    ensures Bit(Xor(r, s), poly, b != c) == Xor(Bit(r, poly, b), Bit(s, poly, c))
  {
    assert Xor(r, s)[1..] + [false] == Xor(r[1..] + [false], s[1..] + [false]);
  }

  /** The division is linear in remainder and message together. */
  lemma {:induction false} FeedLinear(r: Bits, s: Bits, poly: Bits, x: Bits, y: Bits)
    requires |r| == |s| == |poly| > 0 && |x| == |y|
    ensures Feed(Xor(r, s), poly, Xor(x, y)) == Xor(Feed(r, poly, x), Feed(s, poly, y))
    decreases |x|
  {
    if x != [] {
      BitLinear(r, s, poly, x[0], y[0]);
      assert Xor(x, y)[1..] == Xor(x[1..], y[1..]);
      FeedLinear(Bit(r, poly, x[0]), Bit(s, poly, y[0]), poly, x[1..], y[1..]);
    }
  }

  /** A remainder that starts with the message cancels it. */
  lemma {:induction false} FeedCancels(t: Bits, poly: Bits)
    requires |t| <= |poly| && |poly| > 0
    ensures Feed(t + Zeros(|poly| - |t|), poly, t) == Zeros(|poly|)
    decreases |t|
  {
    var n := |poly|;
    var r := t + Zeros(n - |t|);
    if t == [] {
      assert r == Zeros(n);
    } else {
      assert Bit(r, poly, t[0]) == t[1..] + Zeros(n - |t[1..]|);
      FeedCancels(t[1..], poly);
    }
  }

  lemma {:induction false} FeedZeros(poly: Bits, k: nat)
    requires |poly| > 0
    ensures Feed(Zeros(|poly|), poly, Zeros(k)) == Zeros(|poly|)
  {
    if k > 0 {
      assert Bit(Zeros(|poly|), poly, false) == Zeros(|poly|);
      assert Zeros(k)[1..] == Zeros(k - 1);
      FeedZeros(poly, k - 1);
    }
  }

  /** Zero message bits shift the remainder as long as only zeros leave it. */
  lemma {:induction false} FeedShifts(m: Bits, poly: Bits, k: nat)
    requires |m| + k == |poly| && |poly| > 0
    ensures Feed(Zeros(k) + m, poly, Zeros(k)) == m + Zeros(k)
    decreases k
  {
    if k == 0 {
      assert Zeros(k) + m == m + Zeros(k);
    } else {
      assert Bit(Zeros(k) + m, poly, false) == Zeros(k - 1) + (m + [false]);
      assert Zeros(k)[1..] == Zeros(k - 1);
      FeedShifts(m + [false], poly, k - 1);
      assert m + [false] + Zeros(k - 1) == m + Zeros(k);
    }
  }

  // ---- one byte at a time ----

  const BYTE: nat := 8

  /** The byte of the remainder a new byte is compared with. */
  function Top(r: Bits): (t: Bits)
    ensures |t| == BYTE
  {
    if |r| >= BYTE then r[..BYTE] else r + Zeros(BYTE - |r|)
  }

  function Shift(r: Bits): (s: Bits)
    ensures |s| == |r|
  {
    if |r| >= BYTE then r[BYTE..] + Zeros(BYTE) else Zeros(|r|)
  }

  lemma XorZeros(a: Bits)
    ensures Xor(a, Zeros(|a|)) == a && Xor(Zeros(|a|), a) == a && Xor(a, a) == Zeros(|a|)
  {
  }

  lemma XorAssoc(a: Bits, b: Bits, c: Bits)
    requires |a| == |b| == |c|
    ensures Xor(Xor(a, b), c) == Xor(a, Xor(b, c))
  {
  }

  lemma FeedNarrow(r: Bits, poly: Bits)
    requires 0 < |r| == |poly| < BYTE
    ensures Feed(r, poly, Top(r)) == Zeros(|r|)
  {
    FeedConcat(r, poly, r, Zeros(BYTE - |r|));
    FeedCancels(r, poly);
    assert r + Zeros(0) == r;
    FeedZeros(poly, BYTE - |r|);
  }

  lemma FeedWide(r: Bits, poly: Bits)
    requires BYTE <= |r| == |poly|
    ensures Feed(r, poly, Top(r)) == Shift(r)
  {
    var t, m := r[..BYTE], r[BYTE..];
    var hi, lo := t + Zeros(|m|), Zeros(BYTE) + m;
    assert r == Xor(hi, lo);
    XorZeros(t);
    FeedLinear(hi, lo, poly, t, Zeros(BYTE));
    FeedCancels(t, poly);
    FeedShifts(m, poly, BYTE);
    XorZeros(m + Zeros(BYTE));
  }

  /** Eight single steps are one shift and one table entry. */
  lemma ByteStep(r: Bits, poly: Bits, b: Bits)
    requires 0 < |r| == |poly| && |b| == BYTE
    ensures Feed(r, poly, b) == Xor(Shift(r), Feed(Zeros(|r|), poly, Xor(Top(r), b)))
  {
    var t, z := Top(r), Zeros(|r|);
    if |r| >= BYTE { FeedWide(r, poly); } else { FeedNarrow(r, poly); }
    FeedLinear(r, z, poly, t, Xor(t, b));
    XorZeros(r);
    assert Xor(t, Xor(t, b)) == b by { XorAssoc(t, t, b); XorZeros(t); XorZeros(b); }
  }

  // ---- augmented messages ----

  /** The variant that shifts message bits in at the bottom. */
  function AugBit(r: Bits, poly: Bits, b: bool): (q: Bits)
    requires |r| == |poly| > 0
    ensures |q| == |r|
  {
    var s := r[1..] + [b];
    if r[0] then Xor(s, poly) else s
  }

  function Aug(r: Bits, poly: Bits, bits: Bits): (q: Bits)
    requires |r| == |poly| > 0
    ensures |q| == |r|
    decreases |bits|
  {
    if bits == [] then r else Aug(AugBit(r, poly, bits[0]), poly, bits[1..])
  }

  function Low(n: nat, b: bool): (e: Bits)
    requires n > 0
    ensures |e| == n
  {
    Zeros(n - 1) + [b]
  }

  lemma AugBitIsBit(r: Bits, poly: Bits, b: bool)
    requires |r| == |poly| > 0
    ensures AugBit(r, poly, b) == Xor(Bit(r, poly, false), Low(|r|, b))
  {
  }

  lemma FeedLow(poly: Bits, b: bool, k: nat)
    requires k < |poly|
    ensures Feed(Low(|poly|, b), poly, Zeros(k)) == Zeros(|poly| - 1 - k) + [b] + Zeros(k)
  {
    var m := Zeros(|poly| - 1 - k) + [b];
    ZerosJoin(k, |poly| - 1 - k);
    assert Low(|poly|, b) == Zeros(k) + m;
    FeedShifts(m, poly, k);
  }

  lemma ZerosJoin(a: nat, b: nat)
    ensures Zeros(a) + Zeros(b) == Zeros(a + b)
  {
  }

  lemma JoinLow(n: nat, b: bool, q: Bits)
    requires |q| < n
    ensures Xor(Zeros(n - 1 - |q|) + [b] + Zeros(|q|), Zeros(n - |q|) + q) == Zeros(n - 1 - |q|) + ([b] + q)
  {
  }

  lemma AugBitFeeds(r: Bits, poly: Bits, b: bool, k: nat)
    requires |r| == |poly| > k
    ensures Feed(AugBit(r, poly, b), poly, Zeros(k)) ==
      Xor(Feed(r, poly, Zeros(k + 1)), Zeros(|r| - 1 - k) + [b] + Zeros(k))
  {
    var z := Zeros(k);
    AugBitIsBit(r, poly, b);
    XorZeros(z);
    FeedLinear(Bit(r, poly, false), Low(|r|, b), poly, z, z);
    FeedLow(poly, b, k);
    assert Zeros(k + 1)[1..] == z;
  }

  lemma AugStep(f: Bits, b: bool, q: Bits)
    requires |f| > |q|
    ensures Xor(Xor(f, Zeros(|f| - 1 - |q|) + [b] + Zeros(|q|)), Zeros(|f| - |q|) + q) ==
      Xor(f, Zeros(|f| - 1 - |q|) + ([b] + q))
  {
    XorAssoc(f, Zeros(|f| - 1 - |q|) + [b] + Zeros(|q|), Zeros(|f| - |q|) + q);
    JoinLow(|f|, b, q);
  }

  /** Up to a register's width, shifting bits in is dividing by zeros and adding the bits. */
  lemma {:induction false} AugIsFeed(r: Bits, poly: Bits, p: Bits)
    requires |r| == |poly| > 0 && |p| <= |r|
    ensures Aug(r, poly, p) == Xor(Feed(r, poly, Zeros(|p|)), Zeros(|r| - |p|) + p)
    decreases |p|
  {
    if p == [] {
      assert Zeros(|r| - |p|) + p == Zeros(|r|);
      XorZeros(r);
    } else {
      AugIsFeed(AugBit(r, poly, p[0]), poly, p[1..]);
      AugBitFeeds(r, poly, p[0], |p| - 1);
      AugStep(Feed(r, poly, Zeros(|p|)), p[0], p[1..]);
      assert p == [p[0]] + p[1..];
    }
  }

  lemma AugStepAfterZeros(a: Bits, poly: Bits, x: bool)
    requires |a| == |poly| > 0
    ensures Feed(AugBit(a, poly, x), poly, Zeros(|a|)) == Bit(Feed(a, poly, Zeros(|a|)), poly, x)
  {
    var n := |a|;
    var z, e := Zeros(n), Low(n, x);
    AugBitIsBit(a, poly, x);
    XorZeros(z);
    FeedLinear(Bit(a, poly, false), e, poly, z, z);
    assert [false] + z == Zeros(n + 1) == z + [false];
    FeedConcat(a, poly, [false], z);
    FeedConcat(a, poly, z, [false]);
    assert Feed(a, poly, [false]) == Bit(a, poly, false);
    var f := Feed(a, poly, z);
    assert Feed(f, poly, [false]) == Bit(f, poly, false);
    assert z == Zeros(n - 1) + [false];
    FeedConcat(e, poly, Zeros(n - 1), [false]);
    FeedShifts([x], poly, n - 1);
    var g := [x] + Zeros(n - 1);
    assert Feed(g, poly, [false]) == Bit(g, poly, false);
    XorZeros(f);
    BitLinear(f, z, poly, false, x);
    assert Bit(z, poly, x) == Bit(g, poly, false);
  }

  /** Shifting in a message and then a register's width of zeros is dividing the message. */
  lemma {:induction false} AugmentedIsPlain(a: Bits, poly: Bits, m: Bits)
    requires |a| == |poly| > 0
    ensures Aug(a, poly, m + Zeros(|a|)) == Feed(Feed(a, poly, Zeros(|a|)), poly, m)
    decreases |m|
  {
    var z := Zeros(|a|);
    if m == [] {
      assert m + z == z;
      AugIsFeed(a, poly, z);
      assert Zeros(0) + z == z;
      XorZeros(Feed(a, poly, z));
    } else {
      assert (m + z)[1..] == m[1..] + z;
      AugStepAfterZeros(a, poly, m[0]);
      AugmentedIsPlain(AugBit(a, poly, m[0]), poly, m[1..]);
    }
  }

  lemma {:induction false} AugConcat(r: Bits, poly: Bits, x: Bits, y: Bits)
    requires |r| == |poly| > 0
    ensures Aug(r, poly, x + y) == Aug(Aug(r, poly, x), poly, y)
    decreases |x|
  {
    if x == [] {
      assert x + y == y;
    } else {
      assert (x + y)[1..] == x[1..] + y;
      AugConcat(AugBit(r, poly, x[0]), poly, x[1..], y);
    }
  }

  /** A message followed by its own checksum leaves no remainder. */
  lemma AugmentedChecks(poly: Bits, m: Bits)
    requires |poly| > 0
    ensures var c := Feed(Zeros(|poly|), poly, m); Aug(Zeros(|poly|), poly, m + c) == Zeros(|poly|)
  {
    var n := |poly|;
    var z := Zeros(n);
    var c := Feed(z, poly, m);
    AugmentedIsPlain(z, poly, m);
    FeedZeros(poly, n);
    AugConcat(z, poly, m, z);
    AugConcat(z, poly, m, c);
    var u := Aug(z, poly, m);
    AugIsFeed(u, poly, z);
    AugIsFeed(u, poly, c);
    assert Zeros(0) + z == z && Zeros(0) + c == c;
    XorZeros(Feed(u, poly, z));
    XorZeros(c);
  }
}
