/** Choosing media servers for a new call: round robin over the available ones, with a periodic
    pick of the least loaded. */
module Servers {
  import opened Modular
  import opened Cycles

  const WORD: nat := 0x1_0000_0000
  const MAX_SERVERS_TO_TRY: nat := 3

  /** `online`: the event socket client has reached its regular status queries. */
  datatype Server = Server(online: bool, current: nat, max: nat)

  /** Unsigned subtraction. */
  function Minus(a: int, b: int): (d: nat)
    ensures d < WORD
  {
    (a - b) % WORD
  }

  predicate Available(s: Server) { s.online && s.current < Minus(s.max, 2) }

  function FreeSessions(s: Server): nat { Minus(s.max, s.current) }

  /** Availability means that more than two sessions are free, except that a maximum below 2 wraps
      around and makes an online server look free. */
  lemma AvailableMeansRoom(s: Server)
    requires s.max < WORD && s.current < WORD
    ensures Available(s) <==> s.online && s.current < (if s.max >= 2 then s.max - 2 else WORD + s.max - 2)
    ensures s.max >= 2 && Available(s) ==> FreeSessions(s) == s.max - s.current > 2
    ensures Available(Server(true, 0, 0))
  {
    if s.max >= 2 {
      ModUnique(s.max - 2, WORD, 0, s.max - 2);
      if s.current <= s.max { ModUnique(s.max - s.current, WORD, 0, s.max - s.current); }
    } else {
      assert (s.max - 2) % WORD == s.max - 2 + WORD;
    }
  }

  // ---- least loaded ----

  /** The order in which servers are sorted by capacity. */
  predicate Precedes(a: Server, b: Server) {
    if Available(a) && Available(b) then FreeSessions(a) > FreeSessions(b) else Available(a)
  }

  predicate Tied(a: Server, b: Server) { !Precedes(a, b) && !Precedes(b, a) }

  /** Sorting by this order is well defined. */
  lemma StrictWeakOrder(a: Server, b: Server, c: Server)
    ensures !(Precedes(a, b) && Precedes(b, a))
    ensures Precedes(a, b) && Precedes(b, c) ==> Precedes(a, c)
    ensures Tied(a, b) && Tied(b, c) ==> Tied(a, c)
  {
  }

  // ---- round robin ----

  /** Indices of the available servers in `lo..hi`, ascending. */
  function Avail(servers: seq<Server>, lo: nat, hi: nat): seq<int>
    requires hi <= |servers|
  {
    if hi <= lo then []
    else Avail(servers, lo, hi - 1) + if Available(servers[hi - 1]) then [hi - 1] else []
  }

  /** Listed at `i`: exactly the available servers of the stretch. */
  predicate Lists(servers: seq<Server>, lo: nat, hi: nat, i: int) {
    lo <= i < hi && i < |servers| && Available(servers[i])
  }

  lemma {:induction false} AvailHolds(servers: seq<Server>, lo: nat, hi: nat, i: int)
    requires hi <= |servers|
    ensures i in Avail(servers, lo, hi) <==> Lists(servers, lo, hi, i)
  {
    if lo < hi { AvailHolds(servers, lo, hi - 1, i); }
  }

  lemma {:induction false} AvailAscends(servers: seq<Server>, lo: nat, hi: nat)
    requires hi <= |servers|
    ensures var a := Avail(servers, lo, hi); forall j, k :: 0 <= j < k < |a| ==> a[j] < a[k]
  {
    if lo < hi {
      AvailAscends(servers, lo, hi - 1);
      var a, rest := Avail(servers, lo, hi), Avail(servers, lo, hi - 1);
      forall j, k | 0 <= j < k < |a| ensures a[j] < a[k] {
        assert a[j] == rest[j] && rest[j] in rest;
        AvailHolds(servers, lo, hi - 1, rest[j]);
        if k < |rest| { assert a[k] == rest[k]; }
      }
    }
  }

  lemma {:induction false} AvailSplit(servers: seq<Server>, lo: nat, mid: nat, hi: nat)
    requires lo <= mid <= hi <= |servers|
    ensures Avail(servers, lo, hi) == Avail(servers, lo, mid) + Avail(servers, mid, hi)
  {
    if mid < hi { AvailSplit(servers, lo, mid, hi - 1); }
  }

  /** All available servers, once round from `start`. */
  function AvailableFrom(servers: seq<Server>, start: nat): seq<int>
    requires start <= |servers|
  {
    Avail(servers, start, |servers|) + Avail(servers, 0, start)
  }

  /** Every available server is listed, and only once. */
  lemma AvailableFromExact(servers: seq<Server>, start: nat)
    requires start <= |servers|
    ensures var a := AvailableFrom(servers, start);
      && (forall i :: i in a <==> Lists(servers, 0, |servers|, i))
      && (forall j, k :: 0 <= j < k < |a| ==> a[j] != a[k])
  {
    var n := |servers|;
    var p, q := Avail(servers, start, n), Avail(servers, 0, start);
    forall i ensures i in p + q <==> Lists(servers, 0, n, i) {
      AvailHolds(servers, start, n, i);
      AvailHolds(servers, 0, start, i);
    }
    AvailAscends(servers, start, n);
    AvailAscends(servers, 0, start);
    var a := p + q;
    forall j, k | 0 <= j < k < |a| ensures a[j] != a[k] {
      if j < |p| <= k {
        Apart(servers, start, p[j], q[k - |p|]);
        assert a[j] == p[j] && a[k] == q[k - |p|];
      } else if k < |p| {
        assert a[j] == p[j] && a[k] == p[k] && p[j] < p[k];
      } else {
        assert a[j] == q[j - |p|] && a[k] == q[k - |p|];
        assert q[j - |p|] < q[k - |p|];
      }
    }
  }

  /** Before and after `start` no server is the same. */
  lemma Apart(servers: seq<Server>, start: nat, x: int, y: int)
    requires start <= |servers| && x in Avail(servers, start, |servers|) && y in Avail(servers, 0, start)
    ensures x != y
  {
    AvailHolds(servers, start, |servers|, x);
    AvailHolds(servers, 0, start, y);
  }

  /** The first available server at or after `i`, or the number of servers. */
  function FirstFrom(servers: seq<Server>, i: nat): (f: nat)
    requires i <= |servers|
    ensures i <= f <= |servers|
    ensures f < |servers| ==> Available(servers[f])
    ensures forall j :: i <= j < f ==> !Available(servers[j])
    decreases |servers| - i
  {
    if i == |servers| || Available(servers[i]) then i else FirstFrom(servers, i + 1)
  }

  function StartAfter(last: nat, n: nat): nat {
    Wrap((last + 1) % WORD, n)
  }

  function Min(a: nat, b: nat): nat { if a < b then a else b }

  /** The available servers met on the way from `start` to `current`, the end passed or not. */
  function Seen(servers: seq<Server>, start: nat, current: nat, wrapped: bool): seq<int>
    requires start < |servers| && current < |servers|
  {
    if wrapped then Avail(servers, start, |servers|) + Avail(servers, 0, current) else Avail(servers, start, current)
  }

  /** The cursor moves on only past servers that are not available and never round the end. */
  function CursorAt(servers: seq<Server>, start: nat, current: nat, wrapped: bool): nat
    requires start < |servers| && current < |servers|
  {
    var f := FirstFrom(servers, start);
    if !wrapped && f > current then current else f
  }

  lemma SeenStep(servers: seq<Server>, start: nat, current: nat, wrapped: bool)
    requires start < |servers| && current < |servers|
    requires if wrapped then current < start else start <= current
    ensures var next, w := Wrap(current + 1, |servers|), wrapped || current + 1 == |servers|;
      var cursor := CursorAt(servers, start, current, wrapped);
      && Seen(servers, start, next, w) ==
        Seen(servers, start, current, wrapped) + (if Available(servers[current]) then [current as int] else [])
      && CursorAt(servers, start, next, w) ==
        if !Available(servers[current]) && cursor == current then cursor + 1 else cursor
  {
  }

  lemma Collected(servers: seq<Server>, start: nat, current: nat, wrapped: bool, count: nat)
    requires start < |servers| && current < |servers| && count > 0
    requires if wrapped then current <= start else start <= current
    requires var seen := Seen(servers, start, current, wrapped);
      |seen| <= count && (|seen| == count || (wrapped && current == start))
    ensures var all := AvailableFrom(servers, start);
      && Seen(servers, start, current, wrapped) == all[..Min(|all|, count)]
      && CursorAt(servers, start, current, wrapped) == FirstFrom(servers, start)
  {
    if wrapped {
      AvailSplit(servers, 0, current, start);
    } else {
      AvailSplit(servers, start, current, |servers|);
      SliceHead(servers, start, current);
    }
  }

  class FsMonitor {
    var servers: seq<Server>
    const interval: nat
    var lastServer: nat
    var lastRR: nat

    constructor (servers: seq<Server>, interval: nat)
      ensures this.servers == servers && this.interval == interval && lastServer == 0 && lastRR == 0
    {
      this.servers, this.interval, lastServer, lastRR := servers, interval, 0, 0;
    }

    /** Some server which none precedes, as the first of a sorted list is. */
    method LeastLoaded() returns (m: int)
      requires servers != []
      ensures 0 <= m < |servers| && forall j :: 0 <= j < |servers| ==> !Precedes(servers[j], servers[m])
    {
      m := 0;
      var i := 1;
      while i < |servers|
        invariant 1 <= i <= |servers| && 0 <= m < i
        invariant forall j :: 0 <= j < i ==> !Precedes(servers[j], servers[m])
      {
        if Precedes(servers[i], servers[m]) { m := i; }
        i := i + 1;
      }
    }

    /** The round robin part: up to three available servers, each once, in cyclic order from the
        one after the last choice. The cursor stops at the first available one from there on. */
    method Collect() returns (results: seq<int>)
      requires 0 < |servers| < WORD
      modifies this`lastServer
      ensures var start := StartAfter(old(lastServer), |servers|);
        var all := AvailableFrom(servers, start);
        && results == all[..Min(|all|, Min(3, |servers|))]
        && lastServer == FirstFrom(servers, start)
    {
      var total := |servers|;
      var count := Min(MAX_SERVERS_TO_TRY, total);
      lastServer := (lastServer + 1) % WORD;
      if lastServer >= total { lastServer := 0; }
      var start := lastServer;
      var current, exhausted := start, false;
      ghost var wrapped := false;
      results := [];
      while !exhausted && |results| < count
        invariant 0 <= start < total && 0 <= current < total && |results| <= count
        invariant if wrapped then current <= start else start <= current
        invariant exhausted <==> wrapped && current == start
        invariant results == Seen(servers, start, current, wrapped)
        invariant lastServer == CursorAt(servers, start, current, wrapped)
        decreases !wrapped, if wrapped then start - current else total - current
      {
        SeenStep(servers, start, current, wrapped);
        if Available(servers[current]) {
          results := results + [current];
        } else if lastServer == current {
          lastServer := lastServer + 1;
        }
        current := current + 1;
        if current >= total { current := 0; wrapped := true; }
        if current == start { exhausted := true; }
      }
      Collected(servers, start, current, wrapped, count);
    }

    /** False exactly when no server is available. On every call that makes the counter pass the
        interval, an available server with the most free sessions is put in front. */
    method GetAvailableServers() returns (found: bool, results: seq<int>)
      requires |servers| < WORD
      modifies this`lastServer, this`lastRR
      ensures found <==> exists i :: Lists(servers, 0, |servers|, i)
      ensures servers == [] ==> results == [] && lastServer == old(lastServer)
      ensures servers != [] ==> lastServer == FirstFrom(servers, StartAfter(old(lastServer), |servers|))
      ensures lastRR == if found then CounterAfter(interval, |servers|, old(lastRR)) else old(lastRR)
      ensures servers != [] ==>
        var all := AvailableFrom(servers, StartAfter(old(lastServer), |servers|));
        var some := all[..Min(|all|, Min(3, |servers|))];
        if found && Special(interval, |servers|, old(lastRR)) then
          |results| > 0 && results[1..] == some && MostFree(servers, results[0])
        else results == some
    {
      if servers == [] { return false, []; }
      results := Collect();
      SomeFound(servers, StartAfter(old(lastServer), |servers|));
      found := results != [];
      if !found { return; }
      var special := CountCall();
      if special {
        var m := LeastLoaded();
        LeastLoadedIsFree(servers, m);
        ghost var some := results;
        results := [m] + results;
        assert results[1..] == some;
      }
    }

    method CountCall() returns (special: bool)
      modifies this`lastRR
      ensures special == Special(interval, |servers|, old(lastRR))
      ensures lastRR == CounterAfter(interval, |servers|, old(lastRR))
    {
      special := false;
      if interval > 0 && |servers| > 1 {
        lastRR := (lastRR + 1) % WORD;
        if lastRR > interval {
          lastRR := 0;
          special := true;
        }
      }
    }

    /** The servers that head `k` consecutive results with least loaded picks off. Among the heads of
        one call more than there are available servers is each of these. */
    method TakeTurns(k: nat) returns (heads: seq<int>)
      requires |servers| < WORD && interval == 0 && exists i :: Lists(servers, 0, |servers|, i)
      modifies this`lastServer, this`lastRR
      ensures heads == Heads(servers, old(lastServer), k)
      ensures k > |Avail(servers, 0, |servers|)| ==> forall x :: Lists(servers, 0, |servers|, x) ==> x in heads
    {
      heads := [];
      var left := k;
      while left > 0
        invariant 0 <= left <= k
        invariant heads + Heads(servers, lastServer, left) == Heads(servers, old(lastServer), k)
      {
        ghost var last, was := lastServer, heads;
        var head := TakeTurn();
        heads := heads + [head];
        NextHead(servers, last, left, was);
        left := left - 1;
      }
      if k > |Avail(servers, 0, |servers|)| {
        forall x | Lists(servers, 0, |servers|, x) ensures x in heads { EnoughTurns(servers, old(lastServer), x, k); }
      }
    }

    method TakeTurn() returns (head: int)
      requires |servers| < WORD && interval == 0 && exists i :: Lists(servers, 0, |servers|, i)
      modifies this`lastServer, this`lastRR
      ensures head == Head(servers, StartAfter(old(lastServer), |servers|))
      ensures lastServer == FirstFrom(servers, StartAfter(old(lastServer), |servers|))
    {
      HeadIsFirst(servers, StartAfter(lastServer, |servers|));
      var _, results := GetAvailableServers();
      head := results[0];
    }
  }

  /** An available server, none available having more free sessions. */
  ghost predicate MostFree(servers: seq<Server>, m: int) {
    && 0 <= m < |servers| && Available(servers[m])
    && forall j :: 0 <= j < |servers| && Available(servers[j]) ==> FreeSessions(servers[j]) <= FreeSessions(servers[m])
  }

  lemma SomeFound(servers: seq<Server>, start: nat)
    requires start < |servers|
    ensures var all := AvailableFrom(servers, start);
      all[..Min(|all|, Min(3, |servers|))] != [] <==> exists i :: Lists(servers, 0, |servers|, i)
  {
    AvailableFromExact(servers, start);
    var all := AvailableFrom(servers, start);
    if all == [] {
      forall i ensures !Lists(servers, 0, |servers|, i) { assert i !in all; }
    } else {
      assert all[0] in all;
      assert Lists(servers, 0, |servers|, all[0]);
    }
  }

  /** Where some server is available, one that none precedes is, and has the most free sessions. */
  lemma LeastLoadedIsFree(servers: seq<Server>, m: int)
    requires 0 <= m < |servers| && forall j :: 0 <= j < |servers| ==> !Precedes(servers[j], servers[m])
    requires exists i :: Lists(servers, 0, |servers|, i)
    ensures MostFree(servers, m)
  {
    var i :| Lists(servers, 0, |servers|, i);
    assert !Precedes(servers[i], servers[m]);
    forall j | 0 <= j < |servers| && Available(servers[j])
      ensures FreeSessions(servers[j]) <= FreeSessions(servers[m])
    {
      assert !Precedes(servers[j], servers[m]);
    }
  }

  // ---- how often the least loaded server is asked for ----

  predicate Special(interval: nat, n: nat, counter: nat) {
    interval > 0 && n > 1 && (counter + 1) % WORD > interval
  }

  function CounterAfter(interval: nat, n: nat, counter: nat): nat {
    if interval == 0 || n <= 1 then counter
    else if Special(interval, n, counter) then 0
    else (counter + 1) % WORD
  }

  /** The counter after `k` successful calls. */
  function CounterAfterCalls(interval: nat, n: nat, k: nat): nat {
    if k == 0 then 0 else CounterAfter(interval, n, CounterAfterCalls(interval, n, k - 1))
  }

  /** With more than one server exactly every (interval + 1)-th successful call is a special one,
      provided the interval is not the largest unsigned number. */
  lemma {:induction false} EveryIntervalIsSpecial(interval: nat, n: nat, k: nat)
    requires 0 < interval < WORD - 1 && n > 1
    ensures CounterAfterCalls(interval, n, k) == k % (interval + 1)
    ensures Special(interval, n, CounterAfterCalls(interval, n, k)) <==> (k + 1) % (interval + 1) == 0
  {
    var m := interval + 1;
    ModStep(k, m, 1);
    if k == 0 {
      ModUnique(0, m, 0, 0);
    } else {
      EveryIntervalIsSpecial(interval, n, k - 1);
      ModStep(k - 1, m, 1);
      CounterStep(interval, n, (k - 1) % m);
    }
    CounterStep(interval, n, k % m);
  }

  lemma CounterStep(interval: nat, n: nat, c: nat)
    requires c <= interval && 0 < interval < WORD - 1 && n > 1
    ensures Special(interval, n, c) <==> c == interval
    ensures CounterAfter(interval, n, c) == if c == interval then 0 else c + 1
  {
  }

  // ---- bounded wait ----

  /** Who heads the round robin part, once round from `start`. */
  function Head(servers: seq<Server>, start: nat): nat
    requires start <= |servers|
  {
    var f := FirstFrom(servers, start);
    if f < |servers| then f else FirstFrom(servers, 0)
  }

  lemma HeadIsFirst(servers: seq<Server>, start: nat)
    requires start <= |servers| && exists i :: Lists(servers, 0, |servers|, i)
    ensures AvailableFrom(servers, start) != [] && AvailableFrom(servers, start)[0] == Head(servers, start)
  {
    AvailableFromExact(servers, start);
    var i :| Lists(servers, 0, |servers|, i);
    assert i in AvailableFrom(servers, start);
    SliceHead(servers, start, |servers|);
    SliceHead(servers, 0, start);
  }

  lemma SliceHead(servers: seq<Server>, lo: nat, hi: nat)
    requires lo <= hi <= |servers|
    ensures var a, f := Avail(servers, lo, hi), FirstFrom(servers, lo); if f < hi then a != [] && a[0] == f else a == []
  {
    var a, f := Avail(servers, lo, hi), FirstFrom(servers, lo);
    AvailAscends(servers, lo, hi);
    AvailHolds(servers, lo, hi, f);
    if a != [] {
      AvailHolds(servers, lo, hi, a[0]);
      if f < hi {
        var k :| 0 <= k < |a| && a[k] == f;
        assert a[0] <= a[k];
      }
    }
  }

  /** The heads of `k` consecutive calls while nothing else changes. */
  function Heads(servers: seq<Server>, last: nat, k: nat): seq<int>
    requires |servers| < WORD
    decreases k
  {
    if k == 0 then []
    else
      var start := StartAfter(last, |servers|);
      [Head(servers, start)] + Heads(servers, FirstFrom(servers, start), k - 1)
  }

  function Wait(servers: seq<Server>, start: nat, x: nat): nat
    requires start <= |servers| && x < |servers|
  {
    if start <= x then |Avail(servers, start, x)|
    else |Avail(servers, start, |servers|)| + 1 + |Avail(servers, 0, x)|
  }

  /** A call that does not start at `x` brings `x` nearer. */
  lemma WaitShrinks(servers: seq<Server>, start: nat, x: nat)
    requires start < |servers| < WORD && x < |servers| && Available(servers[x]) && Head(servers, start) != x
    ensures Wait(servers, StartAfter(FirstFrom(servers, start), |servers|), x) < Wait(servers, start, x)
  {
    var n, f := |servers|, FirstFrom(servers, start);
    NextStart(f, n);
    if start <= x {
      SkipOne(servers, start, f, x);
    } else if f + 1 < n {
      SkipOne(servers, start, f, n);
    }
  }

  lemma NextStart(f: nat, n: nat)
    requires f <= n < WORD
    ensures StartAfter(f, n) == if f + 1 < n then f + 1 else 0
  {
    if f + 1 < WORD { ModUnique(f + 1, WORD, 0, f + 1); } else { ModUnique(f + 1, WORD, 1, 0); }
  }

  /** The first available server of a stretch is one of those in it. */
  lemma SkipOne(servers: seq<Server>, lo: nat, f: nat, hi: nat)
    requires lo <= f < hi <= |servers| && f == FirstFrom(servers, lo)
    ensures |Avail(servers, f + 1, hi)| < |Avail(servers, lo, hi)|
  {
    AvailSplit(servers, lo, f + 1, hi);
    SliceHead(servers, lo, f + 1);
  }

  lemma {:induction false} HeadsWithinWait(servers: seq<Server>, last: nat, x: nat, k: nat)
    requires 0 < |servers| < WORD && x < |servers| && Available(servers[x])
    requires Wait(servers, StartAfter(last, |servers|), x) < k
    ensures x in Heads(servers, last, k)
    decreases k
  {
    var start := StartAfter(last, |servers|);
    if Head(servers, start) != x {
      WaitShrinks(servers, start, x);
      HeadsWithinWait(servers, FirstFrom(servers, start), x, k - 1);
    }
  }

  /** With no least loaded picks, every available server heads the result of one of any
      |available| + 1 consecutive calls, wherever the cursor stands. */
  lemma BoundedWait(servers: seq<Server>, last: nat, x: nat)
    requires |servers| < WORD && x < |servers| && Available(servers[x])
    ensures x in Heads(servers, last, |Avail(servers, 0, |servers|)| + 1)
  {
    var start, n := StartAfter(last, |servers|), |servers|;
    AvailSplit(servers, 0, start, n);
    if start <= x {
      AvailSplit(servers, start, x, n);
      AvailSplit(servers, x, x + 1, n);
    } else {
      AvailSplit(servers, 0, x, start);
      AvailSplit(servers, x, x + 1, start);
    }
    assert Avail(servers, x, x + 1) == Avail(servers, x, x) + [x];
    HeadsWithinWait(servers, last, x, |Avail(servers, 0, n)| + 1);
  }

  lemma NextHead(servers: seq<Server>, last: nat, k: nat, before: seq<int>)
    requires |servers| < WORD && k > 0
    ensures var start := StartAfter(last, |servers|);
      before + Heads(servers, last, k) ==
        before + [Head(servers, start)] + Heads(servers, FirstFrom(servers, start), k - 1)
  {
  }

  lemma EnoughTurns(servers: seq<Server>, last: nat, x: nat, k: nat)
    requires |servers| < WORD && x < |servers| && Available(servers[x]) && k > |Avail(servers, 0, |servers|)|
    ensures x in Heads(servers, last, k)
  {
    BoundedWait(servers, last, x);
    MoreHeads(servers, last, |Avail(servers, 0, |servers|)| + 1, k, x);
  }

  lemma {:induction false} MoreHeads(servers: seq<Server>, last: nat, j: nat, k: nat, x: int)
    requires |servers| < WORD && j <= k && x in Heads(servers, last, j)
    ensures x in Heads(servers, last, k)
    decreases j
  {
    var start := StartAfter(last, |servers|);
    if x != Head(servers, start) {
      assert x in Heads(servers, FirstFrom(servers, start), j - 1);
      MoreHeads(servers, FirstFrom(servers, start), j - 1, k - 1, x);
    }
  }

  /** |available| calls alone are not enough: a cursor that runs off the end repeats the first. */
  lemma BoundedWaitIsTight()
    ensures var up, down := Server(true, 0, 10), Server(false, 0, 10);
      |Avail([up, up, down], 0, 3)| == 2 && 1 !in Heads([up, up, down], 1, 2)
  {
    var servers := [Server(true, 0, 10), Server(true, 0, 10), Server(false, 0, 10)];
    assert FirstFrom(servers, 2) == FirstFrom(servers, 3) == 3;
    assert Heads(servers, 1, 2) == [0] + Heads(servers, 3, 1);
    assert Heads(servers, 3, 1) == [0] + Heads(servers, 0, 0);
  }
}
