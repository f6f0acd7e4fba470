/** The bit-at-a-time and the table-driven checksum, on values of exactly the register's width. */
module Crc {
  import opened CrcBits

  predicate IsByte(b: Bits) { |b| == BYTE }

  predicate AreBytes(bytes: seq<Bits>) { forall k :: 0 <= k < |bytes| ==> IsByte(bytes[k]) }

  // ---- bit at a time ----

  function InOrder(b: Bits, reflectIn: bool): (r: Bits)
    ensures |r| == |b|
  {
    if reflectIn then Rev(b) else b
  }

  function FeedBytes(r: Bits, poly: Bits, reflectIn: bool, bytes: seq<Bits>): (q: Bits)
    requires |r| == |poly| > 0
    ensures |q| == |r|
  {
    if bytes == [] then r
    else Feed(FeedBytes(r, poly, reflectIn, bytes[..|bytes| - 1]), poly, InOrder(bytes[|bytes| - 1], reflectIn))
  }

  function BasicSum(poly: Bits, init: Bits, final: Bits, reflectIn: bool, reflectRem: bool, bytes: seq<Bits>): Bits
    requires |poly| == |init| == |final| > 0
  {
    Xor(InOrder(FeedBytes(init, poly, reflectIn, bytes), reflectRem), final)
  }

  // ---- table driven ----

  /** The table's entry for byte `x`. */
  function Entry(poly: Bits, reflectIn: bool, x: Bits): (e: Bits)
    requires |poly| > 0 && IsByte(x)
    ensures |e| == |poly|
  {
    InOrder(Feed(Zeros(|poly|), poly, InOrder(x, reflectIn)), reflectIn)
  }

  function Bottom(r: Bits): (t: Bits)
    ensures IsByte(t)
  {
    if |r| >= BYTE then r[|r| - BYTE..] else Zeros(BYTE - |r|) + r
  }

  function ShiftRight(r: Bits): (s: Bits)
    ensures |s| == |r|
  {
    if |r| >= BYTE then Zeros(BYTE) + r[..|r| - BYTE] else Zeros(|r|)
  }

  function TableByte(r: Bits, poly: Bits, reflectIn: bool, x: Bits): (q: Bits)
    requires |r| == |poly| > 0 && IsByte(x)
    ensures |q| == |r|
  {
    if reflectIn then Xor(ShiftRight(r), Entry(poly, true, Xor(x, Bottom(r))))
    else Xor(Shift(r), Entry(poly, false, Xor(x, Top(r))))
  }

  function TableBytes(r: Bits, poly: Bits, reflectIn: bool, bytes: seq<Bits>): (q: Bits)
    requires |r| == |poly| > 0 && AreBytes(bytes)
    ensures |q| == |r|
  {
    if bytes == [] then r
    else TableByte(TableBytes(r, poly, reflectIn, bytes[..|bytes| - 1]), poly, reflectIn, bytes[|bytes| - 1])
  }

  function OptimalSum(poly: Bits, init: Bits, final: Bits, reflectIn: bool, reflectRem: bool, bytes: seq<Bits>): Bits
    requires |poly| == |init| == |final| > 0 && AreBytes(bytes)
  {
    Xor(InOrder(TableBytes(InOrder(init, reflectIn), poly, reflectIn, bytes), reflectRem != reflectIn), final)
  }

  lemma XorCommutes(a: Bits, b: Bits)
    requires |a| == |b|
    ensures Xor(a, b) == Xor(b, a)
  {
  }

  lemma RevShift(r: Bits)
    ensures Rev(Shift(r)) == ShiftRight(Rev(r)) && Rev(Top(r)) == Bottom(Rev(r))
  {
  }

  /** One table step is eight single steps, in either bit order. */
  lemma TableByteIsFeed(r: Bits, poly: Bits, reflectIn: bool, x: Bits)
    requires |r| == |poly| > 0 && IsByte(x)
    ensures TableByte(InOrder(r, reflectIn), poly, reflectIn, x) ==
      InOrder(Feed(r, poly, InOrder(x, reflectIn)), reflectIn)
  {
    ByteStep(r, poly, InOrder(x, reflectIn));
    if reflectIn {
      var i := Xor(Top(r), Rev(x));
      RevShift(r);
      RevXor(Shift(r), Feed(Zeros(|r|), poly, i));
      RevXor(Top(r), Rev(x));
      RevTwice(x);
      RevTwice(i);
      XorCommutes(x, Bottom(Rev(r)));
    } else {
      XorCommutes(x, Top(r));
    }
  }

  lemma {:induction false} TableBytesIsFeedBytes(r: Bits, poly: Bits, reflectIn: bool, bytes: seq<Bits>)
    requires |r| == |poly| > 0 && AreBytes(bytes)
    ensures TableBytes(InOrder(r, reflectIn), poly, reflectIn, bytes) ==
      InOrder(FeedBytes(r, poly, reflectIn, bytes), reflectIn)
  {
    if bytes != [] {
      TableBytesIsFeedBytes(r, poly, reflectIn, bytes[..|bytes| - 1]);
      TableByteIsFeed(FeedBytes(r, poly, reflectIn, bytes[..|bytes| - 1]), poly, reflectIn, bytes[|bytes| - 1]);
    }
  }

  /** For every width, polynomial, initial remainder, final mask, both reflections and every
      message, the table-driven checksum is the bit-at-a-time one. */
  lemma OptimalIsBasic(poly: Bits, init: Bits, final: Bits, reflectIn: bool, reflectRem: bool, bytes: seq<Bits>)
    requires |poly| == |init| == |final| > 0 && AreBytes(bytes)
    ensures OptimalSum(poly, init, final, reflectIn, reflectRem, bytes) ==
      BasicSum(poly, init, final, reflectIn, reflectRem, bytes)
  {
    TableBytesIsFeedBytes(init, poly, reflectIn, bytes);
    RevTwice(FeedBytes(init, poly, reflectIn, bytes));
  }

  // ---- augmented messages ----

  function Flat(bytes: seq<Bits>): Bits {
    if bytes == [] then [] else Flat(bytes[..|bytes| - 1]) + bytes[|bytes| - 1]
  }

  lemma {:induction false} FlatConcat(x: seq<Bits>, y: seq<Bits>)
    ensures Flat(x + y) == Flat(x) + Flat(y)
  {
    if y == [] {
      assert x + y == x;
    } else {
      assert (x + y)[..|x + y| - 1] == x + y[..|y| - 1];
      FlatConcat(x, y[..|y| - 1]);
    }
  }

  lemma {:induction false} FlatLength(bytes: seq<Bits>)
    requires AreBytes(bytes)
    ensures |Flat(bytes)| == BYTE * |bytes|
  {
    if bytes != [] { FlatLength(bytes[..|bytes| - 1]); }
  }

  function ZeroBytes(k: nat): (z: seq<Bits>)
    ensures |z| == k && AreBytes(z)
  {
    seq(k, i => Zeros(BYTE))
  }

  lemma {:induction false} FlatZeroBytes(k: nat)
    ensures Flat(ZeroBytes(k)) == Zeros(BYTE * k)
  {
    if k > 0 {
      assert ZeroBytes(k)[..k - 1] == ZeroBytes(k - 1);
      FlatZeroBytes(k - 1);
    }
  }

  lemma {:induction false} FeedBytesIsFeed(r: Bits, poly: Bits, bytes: seq<Bits>)
    requires |r| == |poly| > 0
    ensures FeedBytes(r, poly, false, bytes) == Feed(r, poly, Flat(bytes))
  {
    if bytes != [] {
      FeedBytesIsFeed(r, poly, bytes[..|bytes| - 1]);
      FeedConcat(r, poly, Flat(bytes[..|bytes| - 1]), bytes[|bytes| - 1]);
    }
  }

  /** One step of the augmented computation: the top byte indexes the table, the next byte is shifted in. */
  function AugByte(r: Bits, poly: Bits, x: Bits): (q: Bits)
    requires |r| == |poly| >= BYTE && IsByte(x)
    ensures |q| == |r|
  {
    Xor(r[BYTE..] + x, Entry(poly, false, r[..BYTE]))
  }

  function AugBytes(r: Bits, poly: Bits, bytes: seq<Bits>): (q: Bits)
    requires |r| == |poly| >= BYTE && AreBytes(bytes)
    ensures |q| == |r|
  {
    if bytes == [] then r else AugByte(AugBytes(r, poly, bytes[..|bytes| - 1]), poly, bytes[|bytes| - 1])
  }

  lemma AugByteIsAug(r: Bits, poly: Bits, x: Bits)
    requires |r| == |poly| >= BYTE && IsByte(x)
    ensures AugByte(r, poly, x) == Aug(r, poly, x)
  {
    var y, e := Zeros(|r| - BYTE) + x, Feed(Zeros(|r|), poly, r[..BYTE]);
    AugIsFeed(r, poly, x);
    ByteStep(r, poly, Zeros(BYTE));
    assert Xor(Top(r), Zeros(BYTE)) == r[..BYTE] by { XorZeros(Top(r)); }
    XorSwap(Shift(r), e, y);
    ShiftedIn(r, x);
  }

  lemma XorSwap(a: Bits, b: Bits, c: Bits)
    requires |a| == |b| == |c|
    ensures Xor(Xor(a, b), c) == Xor(Xor(a, c), b)
  {
  }

  lemma ShiftedIn(r: Bits, x: Bits)
    requires |r| >= BYTE && IsByte(x)
    ensures Xor(Shift(r), Zeros(|r| - BYTE) + x) == r[BYTE..] + x
  {
  }

  lemma {:induction false} AugBytesIsAug(r: Bits, poly: Bits, bytes: seq<Bits>)
    requires |r| == |poly| >= BYTE && AreBytes(bytes)
    ensures AugBytes(r, poly, bytes) == Aug(r, poly, Flat(bytes))
  {
    if bytes != [] {
      AugBytesIsAug(r, poly, bytes[..|bytes| - 1]);
      AugConcat(r, poly, Flat(bytes[..|bytes| - 1]), bytes[|bytes| - 1]);
      AugByteIsAug(AugBytes(r, poly, bytes[..|bytes| - 1]), poly, bytes[|bytes| - 1]);
    }
  }

  /** With as many zero bytes appended as the register has, the augmented computation gives the plain
      checksum; from a remainder other than zero it starts as if that had been divided down first. */
  lemma AugmentedIsBasic(poly: Bits, init: Bits, bytes: seq<Bits>, k: nat)
    requires |poly| == |init| == BYTE * k && k > 0 && AreBytes(bytes)
    ensures AugBytes(init, poly, bytes + ZeroBytes(k)) == FeedBytes(Feed(init, poly, Zeros(|poly|)), poly, false, bytes)
    ensures init == Zeros(|poly|) ==>
              AugBytes(init, poly, bytes + ZeroBytes(k)) == BasicSum(poly, init, Zeros(|poly|), false, false, bytes)
  {
    AugBytesIsAug(init, poly, bytes + ZeroBytes(k));
    FlatConcat(bytes, ZeroBytes(k));
    FlatZeroBytes(k);
    AugmentedIsPlain(init, poly, Flat(bytes));
    FeedBytesIsFeed(Feed(init, poly, Zeros(|poly|)), poly, bytes);
    if init == Zeros(|poly|) {
      FeedZeros(poly, |poly|);
      XorZeros(FeedBytes(init, poly, false, bytes));
    }
  }

  /** A message followed by its big-endian checksum has remainder zero. */
  lemma AugmentedVerifies(poly: Bits, bytes: seq<Bits>, sum: seq<Bits>)
    requires |poly| >= BYTE && AreBytes(bytes) && AreBytes(sum)
    requires Flat(sum) == BasicSum(poly, Zeros(|poly|), Zeros(|poly|), false, false, bytes)
    ensures AugBytes(Zeros(|poly|), poly, bytes + sum) == Zeros(|poly|)
  {
    var z := Zeros(|poly|);
    FeedBytesIsFeed(z, poly, bytes);
    XorZeros(FeedBytes(z, poly, false, bytes));
    AugBytesIsAug(z, poly, bytes + sum);
    FlatConcat(bytes, sum);
    AugmentedChecks(poly, Flat(bytes));
  }
}
