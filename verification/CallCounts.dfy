/** What has been sent on a handle since the request that last came in on it. */
module CallCounts {
  import opened CallTables
  import opened CallSteps

  datatype Counted = FinalReplies | AlternateRoutes

  predicate Hits(w: Counted, o: Output, i: Irq) {
    match w
    case FinalReplies => o.Replied? && o.irq == i && o.status >= 200
    case AlternateRoutes => o.InviteSent? && o.irq == i && o.why == AlternateRoute
  }

  /** The count after one more output: a request starts it again. */
  function Next(w: Counted, o: Output, i: Irq, n: nat): nat {
    if o == Received(i) then 0 else if Hits(w, o, i) then n + 1 else n
  }

  /** The count for handle `i` after `log`, starting from `n`. */
  function Count(w: Counted, log: seq<Output>, i: Irq, n: nat): nat {
    if log == [] then n else Next(w, log[|log| - 1], i, Count(w, log[..|log| - 1], i, n))
  }

  lemma {:induction false} CountAppend(w: Counted, log: seq<Output>, more: seq<Output>, i: Irq, n: nat)
    ensures Count(w, log + more, i, n) == Count(w, more, i, Count(w, log, i, n))
  {
    if more == [] {
      assert log + more == log;
    } else {
      assert (log + more)[..|log + more| - 1] == log + more[..|more| - 1];
      CountAppend(w, log, more[..|more| - 1], i, n);
    }
  }

  lemma CountSnoc(w: Counted, log: seq<Output>, o: Output, i: Irq, n: nat)
    ensures Count(w, log + [o], i, n) == Next(w, o, i, Count(w, log, i, n))
  {
    assert (log + [o])[..|log|] == log;
  }

  /** The count over the few outputs of one step. */
  function Few(w: Counted, o: seq<Output>, i: Irq, n: nat): nat {
    if |o| == 0 then n
    else if |o| == 1 then Next(w, o[0], i, n)
    else if |o| == 2 then Next(w, o[1], i, Next(w, o[0], i, n))
    else if |o| == 3 then Next(w, o[2], i, Next(w, o[1], i, Next(w, o[0], i, n)))
    else if |o| == 4 then Next(w, o[3], i, Next(w, o[2], i, Next(w, o[1], i, Next(w, o[0], i, n))))
    else Count(w, o, i, n)
  }

  lemma CountTwo(w: Counted, a: Output, b: Output, i: Irq, n: nat)
    ensures Count(w, [a, b], i, n) == Next(w, b, i, Next(w, a, i, n))
  {
    CountSnoc(w, [], a, i, n);
    CountSnoc(w, [a], b, i, n);
    assert [] + [a] == [a] && [a] + [b] == [a, b];
  }

  lemma CountIsFew(w: Counted, o: seq<Output>, i: Irq, n: nat)
    ensures Count(w, o, i, n) == Few(w, o, i, n)
  {
    if |o| == 1 {
      CountSnoc(w, [], o[0], i, n);
      assert [] + [o[0]] == o;
    } else if |o| == 2 {
      CountTwo(w, o[0], o[1], i, n);
      assert o == [o[0], o[1]];
    } else if |o| == 3 {
      CountTwo(w, o[0], o[1], i, n);
      CountSnoc(w, [o[0], o[1]], o[2], i, n);
      assert o == [o[0], o[1]] + [o[2]];
    } else if |o| == 4 {
      CountTwo(w, o[0], o[1], i, n);
      CountAppend(w, [o[0], o[1]], [o[2], o[3]], i, n);
      CountTwo(w, o[2], o[3], i, Count(w, [o[0], o[1]], i, n));
      assert o == [o[0], o[1]] + [o[2], o[3]];
    }
  }

  /** How one callback changes the count. */
  lemma CountStep(w: Counted, s: State, e: Event, i: Irq)
    ensures Count(w, Step(s, e).log, i, 0) == Few(w, Outputs(s.t, s.retries, e), i, Count(w, s.log, i, 0))
  {
    CountAppend(w, s.log, Outputs(s.t, s.retries, e), i, 0);
    CountIsFew(w, Outputs(s.t, s.retries, e), i, Count(w, s.log, i, 0));
  }
}
