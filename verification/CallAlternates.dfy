/** At most the configured number of alternate routes per termination, over whole runs. */
module CallAlternates {
  import opened CallTables
  import opened CallSteps
  import opened CallRuns
  import opened CallAccounting
  import opened CallCounts

  /** Alternate routes tried for the request that last came in on handle `i`. */
  function Alternates(log: seq<Output>, i: Irq): nat { Count(AlternateRoutes, log, i, 0) }

  lemma ReactionAlternates(r: Reaction, status: nat, now: nat, i: Irq, n: nat)
    ensures Few(AlternateRoutes, ReactionOutputs(r, status, now), i, n)
      == if r.Tried? && r.v.Alternate? && r.irq == i then n + 1 else n
  {
  }

  lemma NewCallAlternates(t: Tables, retries: nat, e: Event, i: Irq, n: nat)
    requires e.Originate? || e.Terminate? || e.Forward?
    ensures Few(AlternateRoutes, Outputs(t, retries, e), i, n) == if e.irq == i then 0 else n
  {
  }

  lemma ByeAlternates(t: Tables, retries: nat, e: Event, i: Irq, n: nat)
    requires e.Bye?
    ensures Few(AlternateRoutes, Outputs(t, retries, e), i, n) == if e.irq == i then 0 else n
  {
  }

  lemma QuietAlternates(t: Tables, retries: nat, e: Event, i: Irq, n: nat)
    requires e.Cancel? || e.Answer? || e.SessionTimer? || e.ResetStats?
    ensures Few(AlternateRoutes, Outputs(t, retries, e), i, n) == n
  {
  }

  lemma OtherAlternates(t: Tables, retries: nat, e: Event, i: Irq, n: nat)
    requires !e.InviteResponse?
    ensures Few(AlternateRoutes, Outputs(t, retries, e), i, n)
      == if (e.Originate? || e.Terminate? || e.Bye? || e.Forward?) && e.irq == i then 0 else n
  {
    if e.Originate? || e.Terminate? || e.Forward? {
      NewCallAlternates(t, retries, e, i, n);
    } else if e.Bye? {
      ByeAlternates(t, retries, e, i, n);
    } else {
      QuietAlternates(t, retries, e, i, n);
    }
  }

  /** No termination has used more alternate routes than the limit, and each one in progress knows
      how many it has used. */
  ghost predicate WithinLimit(s: State)
    requires TxnsPaired(s.t)
  {
    && (forall i: Irq :: Alternates(s.log, i) <= RetryLimit(s.retries))
    && (forall o :: o in s.t.attempts ==> s.t.attempts[o].count == Alternates(s.log, s.t.txns.right[o]))
  }

  lemma EndedPairs(t: Tables, orq: Orq, b: Leg, status: nat)
    requires t.txns.Ok()
    ensures Ended(t, orq, b, status).t.txns.right == t.txns.right - {orq}
  {
    assert orq !in t.txns.right ==> t.txns.right - {orq} == t.txns.right;
  }

  lemma MovedPairs(t: Tables, irq: Irq, orq: Orq, oldB: Leg, newOrq: Orq, newB: Leg, x: Attempt)
    requires t.txns.Ok() && orq in t.txns.right && irq == t.txns.right[orq] && newOrq !in t.txns.right
    ensures MoveCall(t, irq, orq, oldB, newOrq, newB, x).t.txns.right == t.txns.right[newOrq := irq] - {orq}
  {
    assert t.txns.EraseRight(orq).CanInsert(irq, newOrq);
    assert (t.txns.right - {orq})[newOrq := irq] == t.txns.right[newOrq := irq] - {orq};
  }

  /** The outgoing side of the transaction pairs after an answer to an INVITE. */
  function RightAfter(t: Tables, r: Reaction, e: Event): map<Orq, Irq>
    requires e.InviteResponse?
  {
    if r.Tried? && (r.v.Redirect? || r.v.Alternate?) then t.txns.right[e.newOrq := r.irq] - {e.orq}
    else if r.Tried? || r.Answered? then t.txns.right - {e.orq}
    else t.txns.right
  }

  lemma ReactionPairs(t: Tables, r: Reaction, e: Event)
    requires e.InviteResponse? && t.txns.Ok()
    requires r.Tried? ==> e.orq in t.txns.right && r.irq == t.txns.right[e.orq]
    requires r.Tried? && (r.v.Redirect? || r.v.Alternate?) ==> e.newOrq !in t.txns.right
    ensures AfterReaction(t, r, e).t.txns.right == RightAfter(t, r, e)
  {
    if r.Tried? && (r.v.Redirect? || r.v.Alternate?) {
      MovedPairs(t, r.irq, e.orq, r.b, e.newOrq, e.b, r.v.x);
    } else if r.Tried? {
      EndedPairs(t, e.orq, r.b, e.status);
    } else if r.Answered? {
      EndedPairs(if e.status == 200 then MarkAnswered(t, r.a, e.timerMade && r.info.timerSecs > 0) else t,
                 e.orq, r.b, e.status);
    }
  }

  /** What one answer does to the count of handle `i`. */
  lemma InviteResponseAlternates(s: State, e: Event, i: Irq)
    requires e.InviteResponse?
    ensures var r := React(s.t, s.retries, e);
            Alternates(Step(s, e).log, i)
            == Alternates(s.log, i) + (if r.Tried? && r.v.Alternate? && r.irq == i then 1 else 0)
  {
    CountStep(AlternateRoutes, s, e, i);
    ReactionAlternates(React(s.t, s.retries, e), e.status, e.now, i, Alternates(s.log, i));
  }

  /** The verdict's attempt counts one more exactly on an alternate route. */
  predicate CountedOn(r: Reaction, limit: nat) {
    r.Tried? && (r.v.Redirect? || r.v.Alternate?) ==>
      r.v.x.count == r.x.count + (if r.v.Alternate? then 1 else 0) && (r.v.Alternate? ==> r.x.count < limit)
  }

  lemma ReactIsCounted(t: Tables, retries: nat, e: Event)
    requires e.InviteResponse?
    ensures CountedOn(React(t, retries, e), RetryLimit(retries))
  {
  }

  lemma CountsFollow(t: Tables, r: Reaction, e: Event, limit: nat, log: seq<Output>, more: seq<Output>,
                     attempts: map<Orq, Attempt>, right: map<Orq, Irq>, o: Orq)
    requires e.InviteResponse? && t.txns.Ok() && CountedOn(r, limit)
    requires forall p :: p in t.attempts ==>
      p in t.txns.right && t.attempts[p].count == Alternates(log, t.txns.right[p])
    requires r.Tried? ==> e.orq in t.attempts && r.x == t.attempts[e.orq] && r.irq == t.txns.right[e.orq]
    requires r.Answered? ==> e.orq !in t.attempts
    requires forall i: Irq ::
      Alternates(more, i) == Alternates(log, i) + (if r.Tried? && r.v.Alternate? && r.irq == i then 1 else 0)
    requires attempts == if !r.Tried? then t.attempts
                         else if r.v.Redirect? || r.v.Alternate? then (t.attempts - {e.orq})[e.newOrq := r.v.x]
                         else t.attempts - {e.orq}
    requires right == RightAfter(t, r, e)
    requires r.Tried? && (r.v.Redirect? || r.v.Alternate?) ==> e.newOrq != e.orq
    requires o in attempts
    ensures o in right && attempts[o].count == Alternates(more, right[o])
  {
    if !(r.Tried? && o == e.newOrq && (r.v.Redirect? || r.v.Alternate?)) {
      assert o in t.attempts;
      assert r.Tried? ==> o != e.orq && t.txns.right[o] != r.irq;
    }
  }

  lemma BoundFollows(r: Reaction, limit: nat, log: seq<Output>, more: seq<Output>, i: Irq)
    requires CountedOn(r, limit) && Alternates(log, i) <= limit
    requires r.Tried? ==> r.x.count == Alternates(log, r.irq)
    requires Alternates(more, i) == Alternates(log, i) + (if r.Tried? && r.v.Alternate? && r.irq == i then 1 else 0)
    ensures Alternates(more, i) <= limit
  {
  }

  lemma InviteResponseWithin(s: State, e: Event)
    requires Inv(s.t) && EnvOk(s, e) && e.InviteResponse? && WithinLimit(s) && TxnsPaired(Step(s, e).t)
    ensures WithinLimit(Step(s, e))
  {
    var r, u := React(s.t, s.retries, e), Step(s, e);
    ReactionFits(s, e);
    ReactIsCounted(s.t, s.retries, e);
    StepAttempts(s, e);
    ReactionPairs(s.t, r, e);
    forall i: Irq
      ensures Alternates(u.log, i) == Alternates(s.log, i) + (if r.Tried? && r.v.Alternate? && r.irq == i then 1 else 0)
    {
      InviteResponseAlternates(s, e, i);
    }
    forall i: Irq ensures Alternates(u.log, i) <= RetryLimit(s.retries) {
      BoundFollows(r, RetryLimit(s.retries), s.log, u.log, i);
    }
    forall o | o in u.t.attempts ensures u.t.attempts[o].count == Alternates(u.log, u.t.txns.right[o]) {
      CountsFollow(s.t, r, e, RetryLimit(s.retries), s.log, u.log, u.t.attempts, u.t.txns.right, o);
    }
  }

  /** The attempts and pairs after any other callback. */
  lemma OtherPairs(t: Tables, retries: nat, e: Event)
    requires !e.InviteResponse? && t.txns.Ok()
    requires e.Originate? || e.Terminate? || e.Forward? ==>
      e.irq !in t.txns.left && e.orq !in t.txns.right && e.orq !in t.attempts
    ensures var u := TablesAfter(t, retries, e).t;
            forall o :: o in u.attempts ==>
              if e.Terminate? && o == e.orq && o !in t.attempts
              then u.attempts[o].count == 0 && o in u.txns.right && u.txns.right[o] == e.irq
              else o in t.attempts && u.attempts[o] == t.attempts[o]
                   && (o in t.txns.right && o in u.txns.right ==> u.txns.right[o] == t.txns.right[o])
  {
  }

  lemma OtherAlternatesStep(s: State, e: Event, i: Irq)
    requires !e.InviteResponse?
    ensures Alternates(Step(s, e).log, i)
            == if (e.Originate? || e.Terminate? || e.Bye? || e.Forward?) && e.irq == i then 0 else Alternates(s.log, i)
  {
    CountStep(AlternateRoutes, s, e, i);
    OtherAlternates(s.t, s.retries, e, i, Alternates(s.log, i));
  }

  lemma OtherWithin(s: State, e: Event)
    requires TxnsPaired(s.t) && EnvOk(s, e) && !e.InviteResponse? && WithinLimit(s) && TxnsPaired(Step(s, e).t)
    requires !UncheckedNull(e)
    ensures WithinLimit(Step(s, e))
  {
    var u := Step(s, e);
    OtherPairs(s.t, s.retries, e);
    forall i: Irq ensures Alternates(u.log, i) <= RetryLimit(s.retries) { OtherAlternatesStep(s, e, i); }
    forall o | o in u.t.attempts ensures u.t.attempts[o].count == Alternates(u.log, u.t.txns.right[o]) {
      OtherAlternatesStep(s, e, u.t.txns.right[o]);
    }
  }

  /** In every run, no termination is re-sent to more alternate routes than the limit, which is one
      less than the configured number of routes to try when that number is at least 1. */
  lemma {:induction false} RunWithinLimit(s: State, es: seq<Event>)
    requires Inv(s.t) && WithinLimit(s) && Legal(s, es)
    ensures Inv(Exec(s, es).t) && WithinLimit(Exec(s, es))
    ensures 1 <= s.retries < UINT ==> forall i: Irq :: Alternates(Exec(s, es).log, i) <= s.retries - 1
    decreases |es|
  {
    if es != [] {
      StepKeepsInv(s, es[0]);
      if es[0].InviteResponse? { InviteResponseWithin(s, es[0]); } else { OtherWithin(s, es[0]); }
      RunWithinLimit(Step(s, es[0]), es[1..]);
    }
  }

  /** With the number of routes left at 0 the guard's subtraction wraps and the limit is not 0. */
  lemma ZeroRetriesWraps()
    ensures RetryLimit(0) == UINT - 1
    ensures forall retries: nat :: retries < UINT ==> (RetryLimit(retries) == retries - 1 <==> retries != 0)
  {
  }
}
