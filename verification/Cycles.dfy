/** Going round a list for ever, and lists that hold each index a given number of times. */
module Cycles {
  import opened Modular

  /** `n` consecutive elements of the endless repetition of `s`, from position `start` on. */
  function Window<T>(s: seq<T>, start: nat, n: nat): (w: seq<T>)
    requires |s| > 0
    ensures |w| == n
  {
    seq(n, i requires 0 <= i < n => s[(start + i) % |s|])
  }

  /** Once round from anywhere meets every element as often as the list holds it. */
  lemma OnceRound<T>(s: seq<T>, start: nat)
    requires |s| > 0
    ensures multiset(Window(s, start, |s|)) == multiset(s)
  {
    var n, a := |s|, start % |s|;
    var w := Window(s, start, n);
    forall i | 0 <= i < n
      ensures w[i] == (s[a..] + s[..a])[i]
    {
      ModStep(start, n, i);
    }
    assert w == s[a..] + s[..a];
    assert s == s[..a] + s[a..];
  }

  /** A window only depends on where in the round it starts, and its tail is the next window. */
  lemma WindowStep<T>(s: seq<T>, p: nat, n: nat)
    requires |s| > 0
    ensures Window(s, p, n + 1) == [s[p % |s|]] + Window(s, p % |s| + 1, n)
  {
    var w, v := Window(s, p, n + 1), Window(s, p % |s| + 1, n);
    forall i | 0 <= i < n
      ensures w[i + 1] == v[i]
    {
      ModSame(p, |s|, i + 1);
    }
    assert w == [s[p % |s|]] + v;
  }

  /** A place in a round of `n`, the place after the last being the first. */
  function Wrap(p: nat, n: nat): nat { if p < n then p else 0 }

  /** The same walk, told step by step. */
  predicate Walks<T(==)>(s: seq<T>, p: nat, w: seq<T>)
    requires |s| > 0
    decreases w
  {
    w == [] || (w[0] == s[Wrap(p, |s|)] && Walks(s, Wrap(p, |s|) + 1, w[1..]))
  }

  lemma WalkOn<T>(s: seq<T>, p: nat, x: T, rest: seq<T>)
    requires |s| > 0 && x == s[Wrap(p, |s|)] && Walks(s, Wrap(p, |s|) + 1, rest)
    ensures Walks(s, p, [x] + rest)
  {
    assert ([x] + rest)[1..] == rest;
  }

  lemma WalksWrap<T>(s: seq<T>, w: seq<T>)
    requires |s| > 0
    ensures Walks(s, |s|, w) <==> Walks(s, 0, w)
  {
    assert Wrap(|s|, |s|) == Wrap(0, |s|);
  }

  lemma {:induction false} WalkIsWindow<T>(s: seq<T>, p: nat, w: seq<T>)
    requires |s| > 0 && p <= |s| && Walks(s, p, w)
    ensures w == Window(s, p, |w|)
    decreases w
  {
    if w != [] {
      WalkIsWindow(s, Wrap(p, |s|) + 1, w[1..]);
      ModUnique(p, |s|, if p < |s| then 0 else 1, Wrap(p, |s|));
      WindowStep(s, p, |w| - 1);
      assert w == [w[0]] + w[1..];
    }
  }

  /** Every stretch as long as one round, anywhere in a longer walk, is one round. */
  lemma EveryRound<T>(s: seq<T>, p: nat, w: seq<T>, from: nat)
    requires |s| > 0 && p <= |s| && from + |s| <= |w| && Walks(s, p, w)
    ensures multiset(w[from..from + |s|]) == multiset(s)
  {
    WalkIsWindow(s, p, w);
    assert w[from..from + |s|] == Window(s, p + from, |s|);
    OnceRound(s, p + from);
  }

  // ---- weighted lists ----

  /** Index 0 `ws[0]` times, then index 1 `ws[1]` times, and so on. */
  function Spread(ws: seq<nat>): seq<int> {
    if ws == [] then []
    else Spread(ws[..|ws| - 1]) + seq(ws[|ws| - 1], _ => |ws| - 1)
  }

  /** Where the entries of index `i` begin. */
  function Start(ws: seq<nat>, i: nat): nat
    requires i <= |ws|
  {
    |Spread(ws[..i])|
  }

  lemma {:induction false} SpreadAt(ws: seq<nat>, i: nat, k: nat)
    requires i < |ws| && k < ws[i]
    ensures Start(ws, i) + k < |Spread(ws)| && Spread(ws)[Start(ws, i) + k] == i
  {
    var front := ws[..|ws| - 1];
    if i == |ws| - 1 {
      assert ws[..i] == front;
    } else {
      SpreadAt(front, i, k);
      assert front[..i] == ws[..i];
    }
  }

  lemma StartStep(ws: seq<nat>, i: nat)
    requires i < |ws|
    ensures Start(ws, i + 1) == Start(ws, i) + ws[i]
    ensures Start(ws, 0) == 0 && Start(ws, |ws|) == |Spread(ws)|
  {
    assert ws[..i + 1][..i] == ws[..i];
    assert ws[..|ws|] == ws;
  }

  lemma {:induction false} StartBelow(ws: seq<nat>, i: nat)
    requires i <= |ws|
    ensures Start(ws, i) <= |Spread(ws)|
    decreases |ws| - i
  {
    if i == |ws| {
      assert ws[..i] == ws;
    } else {
      StartStep(ws, i);
      StartBelow(ws, i + 1);
    }
  }

  /** The list holds each index exactly as often as its weight says, and nothing else. */
  lemma {:induction false} SpreadCount(ws: seq<nat>, i: int)
    ensures multiset(Spread(ws))[i] == if 0 <= i < |ws| then ws[i] else 0
  {
    if ws != [] {
      var front, last := ws[..|ws| - 1], seq(ws[|ws| - 1], _ => |ws| - 1);
      SpreadCount(front, i);
      RepeatCount(ws[|ws| - 1], |ws| - 1, i);
      assert Spread(ws) == Spread(front) + last;
    }
  }

  lemma {:induction false} RepeatCount(n: nat, x: int, i: int)
    ensures multiset(seq(n, _ => x))[i] == if i == x then n else 0
  {
    if n > 0 {
      RepeatCount(n - 1, x, i);
      assert seq(n, _ => x) == seq(n - 1, _ => x) + [x];
    }
  }
}
