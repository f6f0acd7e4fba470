/** Per-trunk counters: attempts, and failures by status code in 700 slots. */
module TrunkStats {

  const USIZE: nat := 0x1_0000_0000_0000_0000
  const SLOTS: nat := 700

  datatype Counters = Counters(attempts: nat, fails: seq<nat>) {
    ghost predicate Ok() {
      |fails| == SLOTS && attempts < USIZE && (forall k :: 0 <= k < SLOTS ==> fails[k] < USIZE)
    }
  }

  function Zeroes(): (z: seq<nat>)
    ensures |z| == SLOTS && Sum(z) == 0
  {
    var z := seq(SLOTS, i => 0);
    SumOfZeroes(z);
    z
  }

  const ZERO: Counters := Counters(0, Zeroes())

  /** Counting an attempt; when the counter wraps to 0 the failures are cleared too. */
  function CountAttempt(c: Counters): Counters {
    var n := (c.attempts + 1) % USIZE;
    Counters(n, if n == 0 then Zeroes() else c.fails)
  }

  function CountFailure(c: Counters, status: nat): Counters
    requires status < |c.fails|
  {
    c.(fails := c.fails[status := (c.fails[status] + 1) % USIZE])
  }

  function Sum(s: seq<nat>): nat {
    if s == [] then 0 else Sum(s[..|s| - 1]) + s[|s| - 1]
  }

  lemma {:induction false} SumOfZeroes(s: seq<nat>)
    requires forall k :: 0 <= k < |s| ==> s[k] == 0
    ensures Sum(s) == 0
  {
    if s != [] { SumOfZeroes(s[..|s| - 1]); }
  }

  lemma {:induction false} SumUpdate(s: seq<nat>, k: nat, v: nat)
    requires k < |s|
    ensures Sum(s[k := v]) == Sum(s) - s[k] + v
  {
    var n := |s| - 1;
    if k == n {
      assert s[k := v][..n] == s[..n];
    } else {
      assert s[k := v][..n] == s[..n][k := v];
      SumUpdate(s[..n], k, v);
    }
  }

  lemma {:induction false} SumBoundsEach(s: seq<nat>, k: nat)
    requires k < |s|
    ensures s[k] <= Sum(s)
  {
    if k < |s| - 1 { SumBoundsEach(s[..|s| - 1], k); }
  }

  /** A failure adds exactly one to the failure total as long as that total is below the counter's range. */
  lemma FailureAddsOne(c: Counters, status: nat)
    requires c.Ok() && status < SLOTS && Sum(c.fails) + 1 < USIZE
    ensures CountFailure(c, status).Ok()
    ensures CountFailure(c, status).attempts == c.attempts
    ensures Sum(CountFailure(c, status).fails) == Sum(c.fails) + 1
  {
    SumBoundsEach(c.fails, status);
    SumUpdate(c.fails, status, c.fails[status] + 1);
  }

  /** Counting an attempt keeps failures within attempts, through the wrap as well, where both start
      again from 0; short of it the count goes up by one and the failures stay. */
  lemma AttemptKeepsBound(c: Counters)
    requires c.Ok() && Sum(c.fails) <= c.attempts
    ensures var d := CountAttempt(c);
      && d.Ok() && Sum(d.fails) <= d.attempts
      && (if c.attempts == 0xFFFF_FFFF_FFFF_FFFF then d.attempts == 0 && forall k :: 0 <= k < 700 ==> d.fails[k] == 0
          else d.attempts == c.attempts + 1 && d.fails == c.fails)
  {
    var d := CountAttempt(c);
    forall k | 0 <= k < |d.fails| && d.attempts == 0 ensures d.fails[k] == 0 { SumBoundsEach(d.fails, k); }
  }

  /** The object as the source keeps it: a fixed array of failure slots. */
  class TrunkCounters {
    var attempts: nat
    const fails: array<nat>

    ghost predicate Valid()
      reads this, fails
    {
      Value().Ok()
    }

    ghost function Value(): Counters
      reads this, fails
    {
      Counters(attempts, fails[..])
    }

    constructor ()
      ensures Valid() && fresh(fails) && Value() == ZERO
    {
      attempts := 0;
      fails := new nat[SLOTS](i => 0);
      new;
      assert fails[..] == Zeroes();
    }

    method ClearSlots()
      modifies fails
      ensures fails[..] == seq(fails.Length, i => 0)
    {
      for i := 0 to fails.Length
        invariant forall k :: 0 <= k < i ==> fails[k] == 0
      {
        fails[i] := 0;
      }
    }

    method IncrementAttemptCount()
      requires Valid()
      modifies this, fails
      ensures Valid() && Value() == CountAttempt(old(Value()))
    {
      attempts := (attempts + 1) % USIZE;
      if attempts == 0 {
        ClearSlots();
      }
    }

    /** `inRange`: the source asserts it, and counts nothing otherwise. */
    method IncrementFailureCount(status: nat) returns (inRange: bool)
      requires Valid()
      modifies fails
      ensures inRange == (status < SLOTS)
      ensures Valid() && Value() == if inRange then CountFailure(old(Value()), status) else old(Value())
    {
      inRange := status < SLOTS;
      if inRange {
        fails[status] := (fails[status] + 1) % USIZE;
      }
    }

    method FailureCount() returns (total: nat)
      requires Valid()
      ensures total == Sum(Value().fails) % USIZE
    {
      total := 0;
      var i := 0;
      while i < SLOTS
        invariant i <= SLOTS && total == Sum(fails[..i]) % USIZE
      {
        assert fails[..i + 1][..i] == fails[..i];
        total := (total + fails[i]) % USIZE;
        i := i + 1;
      }
      assert fails[..SLOTS] == fails[..];
    }

    method Reset()
      requires Valid()
      modifies this, fails
      ensures Valid() && Value() == ZERO
    {
      attempts := 0;
      ClearSlots();
      assert fails[..] == Zeroes();
    }
  }
}
