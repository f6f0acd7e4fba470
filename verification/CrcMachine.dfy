/** The checksum objects on machine words. A word may be wider than the register; bits above the
    register's width are left over from shifts and must not matter. */
module CrcMachine {
  import opened CrcBits
  import opened Crc

  /** The `n` low bits of a word. */
  function Reg(w: Bits, n: nat): (r: Bits)
    requires n <= |w|
    ensures |r| == n
  {
    w[|w| - n..]
  }

  /** A word with nothing above its `n` low bits. */
  function Wide(r: Bits, width: nat): (w: Bits)
    requires |r| <= width
    ensures |w| == width && Reg(w, |r|) == r
  {
    Zeros(width - |r|) + r
  }

  lemma RegXor(a: Bits, b: Bits, n: nat)
    requires |a| == |b| >= n
    ensures Reg(Xor(a, b), n) == Xor(Reg(a, n), Reg(b, n))
  {
  }

  /** Reverses the `n` low bits of a word and clears the rest. */
  method Reflect(n: nat, word: Bits) returns (reflection: Bits)
    requires n <= |word|
    ensures reflection == Wide(Rev(Reg(word, n)), |word|)
  {
    var width := |word|;
    ghost var rev := Rev(word);
    var x := word;
    reflection := Zeros(width);
    var i := 0;
    ReflectStart(word, n);
    while i < n
      invariant 0 <= i <= n && |reflection| == width
      invariant x == Zeros(i) + word[..width - i]
      invariant reflection == Zeros(width - n) + rev[..i] + Zeros(n - i)
    {
      ReflectNext(word, n, i);
      if x[width - 1] {
        reflection := reflection[width - n + i := true];
      }
      x := [false] + x[..width - 1];
      i := i + 1;
    }
    ReflectEnd(word, n);
  }

  lemma ReflectStart(word: Bits, n: nat)
    requires n <= |word|
    ensures word == Zeros(0) + word[..|word|]
    ensures Zeros(|word|) == Zeros(|word| - n) + Rev(word)[..0] + Zeros(n)
  {
  }

  /** The lowest bit left is the next of the reflection; the rest moves down. */
  lemma ReflectNext(word: Bits, n: nat, i: nat)
    requires i < n <= |word|
    ensures var x, rev := Zeros(i) + word[..|word| - i], Rev(word);
      && x[|word| - 1] == rev[i]
      && [false] + x[..|word| - 1] == Zeros(i + 1) + word[..|word| - (i + 1)]
      && SetBit(Zeros(|word| - n) + rev[..i] + Zeros(n - i), |word| - n + i, rev[i])
         == Zeros(|word| - n) + rev[..i + 1] + Zeros(n - (i + 1))
  {
    NextZero(word, i);
    SetNext(|word| - n, Rev(word), n, i);
  }

  function SetBit(r: Bits, k: nat, b: bool): Bits
    requires k < |r|
  {
    if b then r[k := true] else r
  }

  lemma NextZero(word: Bits, i: nat)
    requires i < |word|
    ensures [false] + (Zeros(i) + word[..|word| - i])[..|word| - 1] == Zeros(i + 1) + word[..|word| - (i + 1)]
  {
    var w := word[..|word| - i];
    assert (Zeros(i) + w)[..|word| - 1] == Zeros(i) + w[..|w| - 1];
    assert w[..|w| - 1] == word[..|word| - (i + 1)];
    assert [false] + Zeros(i) == Zeros(i + 1);
    assert [false] + (Zeros(i) + w[..|w| - 1]) == [false] + Zeros(i) + w[..|w| - 1];
  }

  lemma SetNext(pad: nat, rev: Bits, n: nat, i: nat)
    requires i < n <= |rev|
    ensures SetBit(Zeros(pad) + rev[..i] + Zeros(n - i), pad + i, rev[i])
      == Zeros(pad) + rev[..i + 1] + Zeros(n - (i + 1))
  {
    var before := Zeros(pad) + rev[..i];
    assert Zeros(n - i) == [false] + Zeros(n - (i + 1));
    assert rev[..i + 1] == rev[..i] + [rev[i]];
    assert before + Zeros(n - i) == before + [false] + Zeros(n - (i + 1));
    assert Zeros(pad) + rev[..i + 1] == before + [rev[i]];
  }

  lemma ReflectEnd(word: Bits, n: nat)
    requires n <= |word|
    ensures Zeros(|word| - n) + Rev(word)[..n] + Zeros(0) == Wide(Rev(Reg(word, n)), |word|)
  {
    assert Rev(word)[..n] == Rev(Reg(word, n));
    assert Zeros(0) == [];
  }

  /** One division step on a word. */
  method Divide(n: nat, word: Bits, poly: Bits, bit: bool) returns (rem: Bits)
    requires 0 < n <= |word| == |poly|
    ensures |rem| == |word| && Reg(rem, n) == Bit(Reg(word, n), Reg(poly, n), bit)
  {
    var high := |word| - n;
    rem := word;
    if bit {
      rem := rem[high := !rem[high]];
    }
    var doPolyDiv := rem[high];
    rem := rem[1..] + [false];
    if doPolyDiv {
      RegXor(rem, poly, n);
      rem := Xor(rem, poly);
    }
    assert Reg(word, n)[1..] + [false] == Reg(word[1..] + [false], n);
  }

  lemma NextBit(todo: Bits, k: nat, z: nat)
    requires k < |todo|
    ensures (todo[k..] + Zeros(z))[0] == todo[k]
    ensures (todo[k..] + Zeros(z))[1..] + [false] == todo[k + 1..] + Zeros(z + 1)
  {
  }

  lemma FeedNext(r: Bits, poly: Bits, todo: Bits, k: nat)
    requires |r| == |poly| > 0 && k < |todo|
    ensures Feed(r, poly, todo[k..]) == Feed(Bit(r, poly, todo[k]), poly, todo[k + 1..])
  {
    assert todo[k..][1..] == todo[k + 1..];
  }

  lemma FeedBytesSnoc(r: Bits, poly: Bits, reflectIn: bool, bytes: seq<Bits>, k: nat)
    requires |r| == |poly| > 0 && k < |bytes|
    ensures FeedBytes(r, poly, reflectIn, bytes[..k + 1])
      == Feed(FeedBytes(r, poly, reflectIn, bytes[..k]), poly, InOrder(bytes[k], reflectIn))
  {
    assert bytes[..k + 1][..k] == bytes[..k];
  }

  lemma TableBytesSnoc(r: Bits, poly: Bits, reflectIn: bool, bytes: seq<Bits>, k: nat)
    requires |r| == |poly| > 0 && k < |bytes| && AreBytes(bytes)
    ensures TableBytes(r, poly, reflectIn, bytes[..k + 1])
      == TableByte(TableBytes(r, poly, reflectIn, bytes[..k]), poly, reflectIn, bytes[k])
  {
    assert bytes[..k + 1][..k] == bytes[..k];
  }

  class CrcBasic {
    const n: nat
    const poly: Bits
    const init: Bits
    const final: Bits
    const reflectIn: bool
    const reflectRem: bool
    var rem: Bits

    ghost predicate Valid()
      reads this
    {
      0 < n <= |rem| == |poly| == |init| == |final|
    }

    constructor (n: nat, poly: Bits, init: Bits, final: Bits, reflectIn: bool, reflectRem: bool)
      requires 0 < n <= |poly| == |init| == |final|
      ensures Valid() && this.n == n && this.poly == poly && this.init == init && this.final == final
      ensures this.reflectIn == reflectIn && this.reflectRem == reflectRem && rem == init
    {
      this.n, this.poly, this.init, this.final := n, poly, init, final;
      this.reflectIn, this.reflectRem := reflectIn, reflectRem;
      rem := init;
    }

    method ProcessBit(bit: bool)
      requires Valid()
      modifies this
      ensures Valid() && Reg(rem, n) == Bit(old(Reg(rem, n)), Reg(poly, n), bit)
    {
      rem := Divide(n, rem, poly, bit);
    }

    /** Feeds the `count` low bits of a byte, upper ones first. */
    method ProcessBits(byte: Bits, count: nat)
      requires Valid() && IsByte(byte) && count <= BYTE
      modifies this
      ensures Valid() && Reg(rem, n) == Feed(old(Reg(rem, n)), Reg(poly, n), byte[BYTE - count..])
    {
      ghost var r0, p, todo := Reg(rem, n), Reg(poly, n), byte[BYTE - count..];
      var bits := byte[BYTE - count..] + Zeros(BYTE - count);
      var i := count;
      assert todo[0..] == todo;
      while i > 0
        invariant Valid() && 0 <= i <= count
        invariant bits == todo[count - i..] + Zeros(BYTE - i)
        invariant Feed(Reg(rem, n), p, todo[count - i..]) == Feed(r0, p, todo)
      {
        ghost var r := Reg(rem, n);
        NextBit(todo, count - i, BYTE - i);
        FeedNext(r, p, todo, count - i);
        assert bits[0] == todo[count - i];
        ProcessBit(bits[0]);
        bits := bits[1..] + [false];
        i := i - 1;
      }
    }

    method ProcessByte(byte: Bits)
      requires Valid() && IsByte(byte)
      modifies this
      ensures Valid() && Reg(rem, n) == Feed(old(Reg(rem, n)), Reg(poly, n), InOrder(byte, reflectIn))
    {
      var b := byte;
      if reflectIn {
        b := Reflect(BYTE, byte);
        assert Reg(byte, BYTE) == byte && Zeros(0) + Rev(byte) == Rev(byte);
      }
      ProcessBits(b, BYTE);
      assert b[0..] == b;
    }

    method ProcessBlock(bytes: seq<Bits>)
      requires Valid() && AreBytes(bytes)
      modifies this
      ensures Valid() && Reg(rem, n) == FeedBytes(old(Reg(rem, n)), Reg(poly, n), reflectIn, bytes)
    {
      ghost var r0 := Reg(rem, n);
      var p := 0;
      while p < |bytes|
        invariant Valid() && 0 <= p <= |bytes|
        invariant Reg(rem, n) == FeedBytes(r0, Reg(poly, n), reflectIn, bytes[..p])
      {
        ProcessNext(bytes, p, r0);
        p := p + 1;
      }
      assert bytes[..|bytes|] == bytes;
    }

    method ProcessNext(bytes: seq<Bits>, p: nat, ghost r0: Bits)
      requires Valid() && p < |bytes| && IsByte(bytes[p]) && |r0| == n
      requires Reg(rem, n) == FeedBytes(r0, Reg(poly, n), reflectIn, bytes[..p])
      modifies this
      ensures Valid() && Reg(rem, n) == FeedBytes(r0, Reg(poly, n), reflectIn, bytes[..p + 1])
    {
      FeedBytesSnoc(r0, Reg(poly, n), reflectIn, bytes, p);
      ProcessByte(bytes[p]);
    }

    method Checksum() returns (sum: Bits)
      requires Valid()
      ensures sum == Wide(Xor(InOrder(Reg(rem, n), reflectRem), Reg(final, n)), |rem|)
    {
      var r := rem;
      if reflectRem {
        r := Reflect(n, rem);
      }
      RegXor(r, final, n);
      sum := Wide(Reg(Xor(r, final), n), |rem|);
    }
  }

  // ---- table indices ----

  function Index(b: Bits): nat {
    if b == [] then 0 else 2 * Index(b[..|b| - 1]) + (if b[|b| - 1] then 1 else 0)
  }

  function Digits(k: nat, v: nat): (b: Bits)
    ensures |b| == k
  {
    if k == 0 then [] else Digits(k - 1, v / 2) + [v % 2 == 1]
  }

  lemma {:induction false} DigitsOfIndex(b: Bits)
    ensures Digits(|b|, Index(b)) == b
  {
    if b != [] { DigitsOfIndex(b[..|b| - 1]); }
  }

  function Pow2(k: nat): nat { if k == 0 then 1 else 2 * Pow2(k - 1) }

  lemma {:induction false} IndexBound(b: Bits)
    ensures Index(b) < Pow2(|b|)
  {
    if b != [] { IndexBound(b[..|b| - 1]); }
  }

  lemma {:induction false} IndexOfDigits(k: nat, v: nat)
    requires v < Pow2(k)
    ensures Index(Digits(k, v)) == v
  {
    if k > 0 {
      IndexOfDigits(k - 1, v / 2);
      assert Digits(k, v)[..k - 1] == Digits(k - 1, v / 2);
    }
  }

  const COMBOS: nat := 256

  lemma ByteIndex(b: Bits)
    requires IsByte(b)
    ensures Index(b) < COMBOS && Digits(BYTE, Index(b)) == b
  {
    IndexBound(b);
    assert Pow2(4) == 16;
    assert Pow2(8) == 256;
    DigitsOfIndex(b);
  }

  lemma ByteOf(v: nat)
    requires v < COMBOS
    ensures Index(Digits(BYTE, v)) == v
  {
    assert Pow2(4) == 16;
    assert Pow2(8) == 256;
    IndexOfDigits(BYTE, v);
  }

  /** The word stored for byte `x` is the byte's remainder, clean above the register when reflected. */
  ghost predicate EntryOk(w: Bits, n: nat, poly: Bits, reflectIn: bool, x: Bits)
    requires 0 < n <= |poly| && IsByte(x)
  {
    |w| == |poly| && Reg(w, n) == Entry(Reg(poly, n), reflectIn, x) && (reflectIn ==> w == Wide(Reg(w, n), |poly|))
  }

  ghost predicate TableOk(table: seq<Bits>, n: nat, poly: Bits, reflectIn: bool)
    requires 0 < n <= |poly|
  {
    |table| == COMBOS && (forall x: Bits :: IsByte(x) ==>
        Index(x) < COMBOS && EntryOk(table[Index(x)], n, poly, reflectIn, x))
  }

  /** The remainder of one byte, as the table is filled. */
  method Remainder(n: nat, poly: Bits, dividend: Bits) returns (remainder: Bits)
    requires 0 < n <= |poly| && IsByte(dividend)
    ensures |remainder| == |poly| && Reg(remainder, n) == Feed(Zeros(n), Reg(poly, n), dividend)
  {
    remainder := Zeros(|poly|);
    assert Reg(remainder, n) == Zeros(n);
    assert dividend[0..] == dividend;
    var i := 0;
    while i < BYTE
      invariant 0 <= i <= BYTE && |remainder| == |poly|
      invariant Feed(Reg(remainder, n), Reg(poly, n), dividend[i..]) == Feed(Zeros(n), Reg(poly, n), dividend)
    {
      FeedNext(Reg(remainder, n), Reg(poly, n), dividend, i);
      remainder := Divide(n, remainder, poly, dividend[i]);
      i := i + 1;
    }
  }

  lemma Reindex(reflectIn: bool, v: nat)
    requires v < COMBOS
    ensures var x := InOrder(Digits(BYTE, v), reflectIn);
            Index(x) < COMBOS && InOrder(x, reflectIn) == Digits(BYTE, v) && Index(InOrder(x, reflectIn)) == v
  {
    var x := InOrder(Digits(BYTE, v), reflectIn);
    ByteIndex(x);
    RevTwice(Digits(BYTE, v));
    ByteOf(v);
  }

  /** The index and the word of one table entry. */
  method TableEntry(n: nat, poly: Bits, reflectIn: bool, d: Bits) returns (x: Bits, w: Bits)
    requires 0 < n <= |poly| && IsByte(d)
    ensures x == InOrder(d, reflectIn) && EntryOk(w, n, poly, reflectIn, x)
  {
    x := d;
    w := Remainder(n, poly, d);
    if reflectIn {
      x := Reflect(BYTE, d);
      assert Reg(d, BYTE) == d && Wide(Rev(d), BYTE) == Rev(d);
      w := Reflect(n, w);
      RevTwice(d);
    }
  }

  /** The entries of the first `upto` dividends are in place. */
  ghost predicate Filled(table: seq<Bits>, upto: nat, n: nat, poly: Bits, reflectIn: bool)
    requires 0 < n <= |poly|
  {
    && |table| == COMBOS
    && (forall v :: 0 <= v < upto ==>
          Index(InOrder(Digits(BYTE, v), reflectIn)) < COMBOS
          && EntryOk(table[Index(InOrder(Digits(BYTE, v), reflectIn))], n, poly, reflectIn,
            InOrder(Digits(BYTE, v), reflectIn)))
  }

  lemma FillOne(table: seq<Bits>, upto: nat, n: nat, poly: Bits, reflectIn: bool, w: Bits)
    requires 0 < n <= |poly| && upto < COMBOS && Filled(table, upto, n, poly, reflectIn)
    requires EntryOk(w, n, poly, reflectIn, InOrder(Digits(BYTE, upto), reflectIn))
    ensures Index(InOrder(Digits(BYTE, upto), reflectIn)) < COMBOS
    ensures Filled(table[Index(InOrder(Digits(BYTE, upto), reflectIn)) := w], upto + 1, n, poly, reflectIn)
  {
    var x := InOrder(Digits(BYTE, upto), reflectIn);
    Reindex(reflectIn, upto);
    ByteIndex(x);
    forall v | 0 <= v < upto ensures Index(InOrder(Digits(BYTE, v), reflectIn)) != Index(x) {
      Reindex(reflectIn, v);
      ByteIndex(InOrder(Digits(BYTE, v), reflectIn));
    }
  }

  lemma FilledIsOk(table: seq<Bits>, n: nat, poly: Bits, reflectIn: bool)
    requires 0 < n <= |poly| && Filled(table, COMBOS, n, poly, reflectIn)
    ensures TableOk(table, n, poly, reflectIn)
  {
    forall x: Bits | IsByte(x) ensures Index(x) < COMBOS && EntryOk(table[Index(x)], n, poly, reflectIn, x) {
      var y := InOrder(x, reflectIn);
      ByteIndex(y);
      RevTwice(x);
      assert InOrder(Digits(BYTE, Index(y)), reflectIn) == x;
    }
  }

  /** Fills the table by dividing every byte, each entry under its own, possibly reflected, index. */
  method InitTable(n: nat, poly: Bits, reflectIn: bool) returns (table: array<Bits>)
    requires 0 < n <= |poly|
    ensures fresh(table) && TableOk(table[..], n, poly, reflectIn)
  {
    table := new Bits[COMBOS](i => []);
    var dividend := 0;
    while dividend < COMBOS
      invariant 0 <= dividend <= COMBOS && Filled(table[..], dividend, n, poly, reflectIn)
    {
      var x, w := TableEntry(n, poly, reflectIn, Digits(BYTE, dividend));
      FillOne(table[..], dividend, n, poly, reflectIn, w);
      ghost var filled := table[..][Index(x) := w];
      table[Index(x)] := w;
      assert table[..] == filled;
      dividend := dividend + 1;
    }
    FilledIsOk(table[..], n, poly, reflectIn);
  }

  /** A word shifted by a byte, down when reflected, else up. */
  function ShiftOut(word: Bits, reflectIn: bool): (s: Bits)
    ensures |s| == |word|
  {
    if |word| <= BYTE then Zeros(|word|)
    else if reflectIn then Zeros(BYTE) + word[..|word| - BYTE]
    else word[BYTE..] + Zeros(BYTE)
  }

  lemma ShiftOutIs(word: Bits, n: nat, reflectIn: bool)
    requires 0 < n <= |word| && (reflectIn ==> word == Wide(Reg(word, n), |word|))
    ensures Reg(ShiftOut(word, reflectIn), n) == if reflectIn then ShiftRight(Reg(word, n)) else Shift(Reg(word, n))
    ensures reflectIn ==> ShiftOut(word, reflectIn) == Wide(Reg(ShiftOut(word, reflectIn), n), |word|)
  {
    if reflectIn { ShiftDown(word, n); } else { ShiftUp(word, n); }
  }

  lemma ShiftUp(word: Bits, n: nat)
    requires 0 < n <= |word|
    ensures Reg(ShiftOut(word, false), n) == Shift(Reg(word, n))
  {
    if |word| <= BYTE {
      ShiftNarrow(word, n);
    } else if n >= BYTE {
      ShiftWide(word, n);
    } else {
      ShiftBetween(word, n);
    }
  }

  lemma ShiftNarrow(word: Bits, n: nat)
    requires 0 < n <= |word| <= BYTE
    ensures Reg(Zeros(|word|), n) == Zeros(n) == Shift(Reg(word, n))
  {
    ZerosTail(|word|, |word| - n);
    if n == BYTE { assert Reg(word, n)[BYTE..] == []; }
  }

  lemma ShiftWide(word: Bits, n: nat)
    requires BYTE <= n <= |word|
    ensures Reg(word[BYTE..] + Zeros(BYTE), n) == Shift(Reg(word, n))
  {
    var k := |word| - n;
    TailOf(word[BYTE..], Zeros(BYTE), k);
    DropTwice(word, BYTE, k);
    DropTwice(word, k, BYTE);
  }

  lemma ShiftBetween(word: Bits, n: nat)
    requires 0 < n < BYTE < |word|
    ensures Reg(word[BYTE..] + Zeros(BYTE), n) == Zeros(n)
  {
    TailOf(word[BYTE..], Zeros(BYTE), |word| - n);
    ZerosTail(BYTE, BYTE - n);
  }

  lemma TailOf(a: Bits, z: Bits, k: nat)
    requires k <= |a| + |z|
    ensures (a + z)[k..] == if k <= |a| then a[k..] + z else z[k - |a|..]
  {
  }

  lemma DropTwice(a: Bits, i: nat, j: nat)
    requires i + j <= |a|
    ensures a[i..][j..] == a[i + j..]
  {
  }

  lemma ZerosTail(n: nat, k: nat)
    requires k <= n
    ensures Zeros(n)[k..] == Zeros(n - k)
  {
  }

  lemma ShiftDown(word: Bits, n: nat)
    requires 0 < n <= |word| && word == Wide(Reg(word, n), |word|)
    ensures Reg(ShiftOut(word, true), n) == ShiftRight(Reg(word, n))
    ensures ShiftOut(word, true) == Wide(Reg(ShiftOut(word, true), n), |word|)
  {
    var w, r, pad := ShiftOut(word, true), Reg(word, n), |word| - n;
    assert w == Zeros(pad) + ShiftRight(r) by {
      if n < BYTE || |word| <= BYTE {
        assert |word| > BYTE ==> word[..|word| - BYTE] == Zeros(|word| - BYTE);
        assert w == Zeros(|word|);
        assert ShiftRight(r) == Zeros(n);
      } else {
        assert word[..|word| - BYTE] == Zeros(pad) + r[..n - BYTE];
        assert Zeros(BYTE) + Zeros(pad) == Zeros(pad) + Zeros(BYTE);
        assert w == Zeros(BYTE) + (Zeros(pad) + r[..n - BYTE]);
      }
    }
  }

  lemma WideXor(a: Bits, b: Bits, n: nat)
    requires |a| == |b| >= n
    ensures a == Wide(Reg(a, n), |a|) && b == Wide(Reg(b, n), |a|) ==> Xor(a, b) == Wide(Reg(Xor(a, b), n), |a|)
  {
    var c, d := Wide(Reg(a, n), |a|), Wide(Reg(b, n), |a|);
    assert forall i :: 0 <= i < |a| - n ==> !c[i] && !d[i];
  }

  /** The byte the next one is compared with: the lowest when reflected, else the register's highest. */
  function IndexByte(word: Bits, n: nat, reflectIn: bool): (top: Bits)
    requires 0 < n <= |word|
    ensures IsByte(top)
  {
    if reflectIn then (if |word| >= BYTE then word[|word| - BYTE..] else Zeros(BYTE - |word|) + word)
    else if n >= BYTE then word[|word| - n..|word| - n + BYTE]
    else word[|word| - n..] + Zeros(BYTE - n)
  }

  lemma IndexByteIs(word: Bits, n: nat, reflectIn: bool)
    requires 0 < n <= |word| && (reflectIn ==> word == Wide(Reg(word, n), |word|))
    ensures IndexByte(word, n, reflectIn) == if reflectIn then Bottom(Reg(word, n)) else Top(Reg(word, n))
  {
    if reflectIn { LowByte(word, n); } else { HighByte(word, n); }
  }

  /** The lowest byte of a word with nothing above its register is that of the register. */
  lemma LowByte(word: Bits, n: nat)
    requires 0 < n <= |word| && word == Wide(Reg(word, n), |word|)
    ensures (if |word| >= BYTE then word[|word| - BYTE..] else Zeros(BYTE - |word|) + word) == Bottom(Reg(word, n))
  {
    if n >= BYTE {
      DropTwice(word, |word| - n, n - BYTE);
    } else {
      LowByteNarrow(word, Reg(word, n), |word| - n);
    }
  }

  lemma LowByteNarrow(word: Bits, r: Bits, pad: nat)
    requires |r| < BYTE && word == Zeros(pad) + r
    ensures (if |word| >= BYTE then word[|word| - BYTE..] else Zeros(BYTE - |word|) + word) == Zeros(BYTE - |r|) + r
  {
    if |word| >= BYTE {
      TailOf(Zeros(pad), r, |word| - BYTE);
      ZerosTail(pad, |word| - BYTE);
    } else {
      MoreZeros(BYTE - |word|, pad, r);
    }
  }

  lemma MoreZeros(a: nat, b: nat, r: Bits)
    ensures Zeros(a) + (Zeros(b) + r) == Zeros(a + b) + r
  {
  }

  /** The highest byte of a register narrower or wider than a byte. */
  lemma HighByte(word: Bits, n: nat)
    requires 0 < n <= |word|
    ensures (if n >= BYTE then word[|word| - n..|word| - n + BYTE] else word[|word| - n..] + Zeros(BYTE - n))
      == Top(Reg(word, n))
  {
    if n >= BYTE { assert word[|word| - n..][..BYTE] == word[|word| - n..|word| - n + BYTE]; }
  }

  class CrcOptimal {
    const n: nat
    const poly: Bits
    const final: Bits
    const reflectIn: bool
    const reflectRem: bool
    const table: array<Bits>
    var rem: Bits

    ghost predicate Valid()
      reads this, table
    {
      && 0 < n <= |rem| == |poly| == |final|
      && TableOk(table[..], n, poly, reflectIn)
      && (reflectIn ==> rem == Wide(Reg(rem, n), |rem|))
    }

    constructor (n: nat, poly: Bits, init: Bits, final: Bits, reflectIn: bool, reflectRem: bool)
      requires 0 < n <= |poly| == |init| == |final|
      ensures Valid() && fresh(table) && this.n == n && this.poly == poly && this.final == final
      ensures this.reflectIn == reflectIn && this.reflectRem == reflectRem
      ensures Reg(rem, n) == InOrder(Reg(init, n), reflectIn)
    {
      this.n, this.poly, this.final := n, poly, final;
      this.reflectIn, this.reflectRem := reflectIn, reflectRem;
      var r := init;
      if reflectIn {
        r := Reflect(n, init);
      }
      rem := r;
      var t := InitTable(n, poly, reflectIn);
      table := t;
    }

    method ProcessBlock(bytes: seq<Bits>)
      requires Valid() && AreBytes(bytes)
      modifies this
      ensures Valid() && Reg(rem, n) == TableBytes(old(Reg(rem, n)), Reg(poly, n), reflectIn, bytes)
    {
      ghost var r0 := Reg(rem, n);
      var p := 0;
      while p < |bytes|
        invariant Valid() && 0 <= p <= |bytes|
        invariant Reg(rem, n) == TableBytes(r0, Reg(poly, n), reflectIn, bytes[..p])
      {
        ProcessNext(bytes, p, r0);
        p := p + 1;
      }
      assert bytes[..|bytes|] == bytes;
    }

    method ProcessNext(bytes: seq<Bits>, p: nat, ghost r0: Bits)
      requires Valid() && p < |bytes| && AreBytes(bytes) && |r0| == n
      requires Reg(rem, n) == TableBytes(r0, Reg(poly, n), reflectIn, bytes[..p])
      modifies this
      ensures Valid() && Reg(rem, n) == TableBytes(r0, Reg(poly, n), reflectIn, bytes[..p + 1])
    {
      TableBytesSnoc(r0, Reg(poly, n), reflectIn, bytes, p);
      ProcessOne(bytes[p]);
    }

    method ProcessOne(x: Bits)
      requires Valid() && IsByte(x)
      modifies this
      ensures Valid() && Reg(rem, n) == TableByte(old(Reg(rem, n)), Reg(poly, n), reflectIn, x)
    {
      var top := IndexByte(rem, n, reflectIn);
      IndexByteIs(rem, n, reflectIn);
      var i := Xor(x, top);
      var shifted := ShiftOut(rem, reflectIn);
      ShiftOutIs(rem, n, reflectIn);
      ByteIndex(i);
      var entry := table[Index(i)];
      assert EntryOk(table[..][Index(i)], n, poly, reflectIn, i);
      RegXor(shifted, entry, n);
      WideXor(shifted, entry, n);
      rem := Xor(shifted, entry);
    }

    method Checksum() returns (sum: Bits)
      requires Valid()
      ensures sum == Wide(Xor(InOrder(Reg(rem, n), reflectRem != reflectIn), Reg(final, n)), |rem|)
    {
      var r := rem;
      if reflectRem != reflectIn {
        r := Reflect(n, rem);
      }
      RegXor(r, final, n);
      sum := Wide(Reg(Xor(r, final), n), |rem|);
    }
  }

  /** A fresh object of either kind, on words of any width, computes the same checksum. */
  method ChecksumBothWays(n: nat, poly: Bits, init: Bits, final: Bits, poly2: Bits, init2: Bits, final2: Bits,
                          reflectIn: bool, reflectRem: bool, bytes: seq<Bits>) returns (slow: Bits, fast: Bits)
    requires 0 < n <= |poly| == |init| == |final| && n <= |poly2| == |init2| == |final2|
    requires Reg(poly, n) == Reg(poly2, n) && Reg(init, n) == Reg(init2, n) && Reg(final, n) == Reg(final2, n)
    requires AreBytes(bytes)
    ensures |slow| == |poly| && |fast| == |poly2|
    ensures slow == Wide(BasicSum(Reg(poly, n), Reg(init, n), Reg(final, n), reflectIn, reflectRem, bytes), |poly|)
    ensures fast == Wide(BasicSum(Reg(poly, n), Reg(init, n), Reg(final, n), reflectIn, reflectRem, bytes), |poly2|)
  {
    var basic := new CrcBasic(n, poly, init, final, reflectIn, reflectRem);
    basic.ProcessBlock(bytes);
    slow := basic.Checksum();
    var optimal := new CrcOptimal(n, poly2, init2, final2, reflectIn, reflectRem);
    optimal.ProcessBlock(bytes);
    fast := optimal.Checksum();
    OptimalIsBasic(Reg(poly, n), Reg(init, n), Reg(final, n), reflectIn, reflectRem, bytes);
  }

  lemma AugWord(rem: Bits, n: nat, poly: Bits, x: Bits, entry: Bits)
    requires BYTE <= n <= |rem| == |poly| == |entry| && IsByte(x)
    requires Reg(entry, n) == Entry(Reg(poly, n), false, Reg(rem, n)[..BYTE])
    ensures Reg(Xor(rem[BYTE..] + x, entry), n) == AugByte(Reg(rem, n), Reg(poly, n), x)
  {
    RegXor(rem[BYTE..] + x, entry, n);
    assert Reg(rem[BYTE..] + x, n) == Reg(rem, n)[BYTE..] + x;
  }

  method AugmentOne(n: nat, poly: Bits, table: array<Bits>, rem: Bits, x: Bits) returns (next: Bits)
    requires BYTE <= n <= |poly| == |rem| && IsByte(x) && TableOk(table[..], n, poly, false)
    ensures |next| == |rem| && Reg(next, n) == AugByte(Reg(rem, n), Reg(poly, n), x)
  {
    var width := |rem|;
    var top := rem[width - n..width - n + BYTE];
    assert top == Reg(rem, n)[..BYTE];
    ByteIndex(top);
    var entry := table[Index(top)];
    assert EntryOk(table[..][Index(top)], n, poly, false, top);
    AugWord(rem, n, poly, x, entry);
    next := Xor(rem[BYTE..] + x, entry);
  }

  /** The augmented-message computation on words. */
  method AugmentedCrc(n: nat, poly: Bits, init: Bits, bytes: seq<Bits>) returns (sum: Bits)
    requires BYTE <= n <= |poly| == |init| && AreBytes(bytes)
    ensures sum == Wide(AugBytes(Reg(init, n), Reg(poly, n), bytes), |poly|)
  {
    var table := InitTable(n, poly, false);
    var rem := init;
    var p := 0;
    while p < |bytes|
      invariant 0 <= p <= |bytes| && |rem| == |poly| && TableOk(table[..], n, poly, false)
      invariant Reg(rem, n) == AugBytes(Reg(init, n), Reg(poly, n), bytes[..p])
    {
      assert bytes[..p + 1][..p] == bytes[..p];
      rem := AugmentOne(n, poly, table, rem, bytes[p]);
      p := p + 1;
    }
    assert bytes[..|bytes|] == bytes;
    sum := Wide(Reg(rem, n), |poly|);
  }
}
