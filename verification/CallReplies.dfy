/** At most one final reply per incoming request, over whole runs. */
module CallReplies {
  import opened CallTables
  import opened CallSteps
  import opened CallRuns
  import opened CallCounts

  /** Final replies to the request that last came in on handle `i`. */
  function Finals(log: seq<Output>, i: Irq): nat { Count(FinalReplies, log, i, 0) }

  /** No request has had more than one final reply, and one that is still open has had none. */
  ghost predicate OneFinalReply(s: State) {
    forall i: Irq :: Finals(s.log, i) <= (if i in s.t.stack.irqs then 0 else 1)
  }

  lemma ClearDialogIrqs(t: Tables, leg: Leg)
    ensures ClearDialog(t, leg).t.stack.irqs.Keys == t.stack.irqs.Keys
  {
  }

  lemma EndedIrqs(t: Tables, orq: Orq, b: Leg, status: nat)
    ensures Ended(t, orq, b, status).t.stack.irqs.Keys == t.stack.irqs.Keys - {IrqOf(t, orq)}
  {
    ClearDialogIrqs(EraseAttempt(ClearTransaction(t, orq), orq), b);
  }

  lemma MoveCallIrqs(t: Tables, irq: Irq, orq: Orq, oldB: Leg, newOrq: Orq, newB: Leg, x: Attempt)
    ensures MoveCall(t, irq, orq, oldB, newOrq, newB, x).t.stack.irqs.Keys == t.stack.irqs.Keys
  {
  }

  lemma ReactionIrqs(t: Tables, r: Reaction, e: Event)
    requires e.InviteResponse? && ((r.Answered? || r.Tried?) ==> r.irq == IrqOf(t, e.orq))
    ensures AfterReaction(t, r, e).t.stack.irqs.Keys
            == if r.Answered? || (r.Tried? && (r.v.Lost? || r.v.GiveUp?))
               then t.stack.irqs.Keys - {r.irq} else t.stack.irqs.Keys
  {
    if r.Answered? {
      EndedIrqs(if e.status == 200 then MarkAnswered(t, r.a, e.timerMade && r.info.timerSecs > 0) else t,
                e.orq, r.b, e.status);
    } else if r.Tried? {
      MoveCallIrqs(t, r.irq, e.orq, r.b, e.newOrq, e.b, if r.v.GiveUp? then r.x else r.v.x);
      EndedIrqs(t, e.orq, r.b, e.status);
    }
  }

  /** A count `n` that fits a handle which is `live` or not. */
  predicate Fits(n: nat, live: bool) { n <= if live then 0 else 1 }

  lemma ReactionFinals(r: Reaction, status: nat, now: nat, i: Irq, n: nat)
    requires r.Ringing? ==> status < 200
    requires r.Answered? || r.Tried? ==> status >= 200
    ensures Few(FinalReplies, ReactionOutputs(r, status, now), i, n)
      == if (r.Answered? || (r.Tried? && (r.v.Lost? || r.v.GiveUp?))) && r.irq == i then n + 1 else n
  {
  }

  lemma InviteResponseFinals(s: State, e: Event, i: Irq, n: nat)
    requires Inv(s.t) && EnvOk(s, e) && e.InviteResponse? && Fits(n, i in s.t.stack.irqs)
    ensures Fits(Few(FinalReplies, Outputs(s.t, s.retries, e), i, n), i in TablesAfter(s.t, s.retries, e).t.stack.irqs)
  {
    ReactionFits(s, e);
    var r := React(s.t, s.retries, e);
    ReactionIrqs(s.t, r, e);
    ReactionFinals(r, e.status, e.now, i, n);
    assert i in AfterReaction(s.t, r, e).t.stack.irqs <==> i in AfterReaction(s.t, r, e).t.stack.irqs.Keys;
  }

  lemma NewCallFinals(t: Tables, retries: nat, e: Event, i: Irq, n: nat)
    requires (e.Originate? || e.Terminate?) && e.irq !in t.stack.irqs && Fits(n, i in t.stack.irqs)
    ensures Fits(Few(FinalReplies, Outputs(t, retries, e), i, n), i in TablesAfter(t, retries, e).t.stack.irqs)
  {
  }

  lemma CancelFinals(t: Tables, retries: nat, e: Event, i: Irq, n: nat)
    requires e.Cancel? && Fits(n, i in t.stack.irqs)
    ensures Fits(Few(FinalReplies, Outputs(t, retries, e), i, n), i in TablesAfter(t, retries, e).t.stack.irqs)
  {
    var leg := ALegOf(t, e.irq);
    if e.irq in t.txns.left {
      ClearDialogIrqs(EraseAttempt(ClearTransaction(t, t.txns.left[e.irq]), t.txns.left[e.irq]), leg);
    }
    ClearDialogIrqs(t, leg);
    var u := TablesAfter(t, retries, e).t;
    assert i in u.stack.irqs <==> i in u.stack.irqs.Keys;
  }

  lemma ByeFinals(t: Tables, retries: nat, e: Event, i: Irq, n: nat)
    requires e.Bye? && Peer(t.dialogs, e.leg).Some? && e.irq !in t.stack.irqs && Fits(n, i in t.stack.irqs)
    ensures Fits(Few(FinalReplies, Outputs(t, retries, e), i, n), i in TablesAfter(t, retries, e).t.stack.irqs)
  {
    ClearDialogIrqs(t, e.leg);
    var u := TablesAfter(t, retries, e).t;
    assert i in u.stack.irqs <==> i in u.stack.irqs.Keys;
  }

  lemma DialogFinals(t: Tables, retries: nat, e: Event, i: Irq, n: nat)
    requires e.Forward? || e.Answer? || e.SessionTimer? || e.ResetStats?
    requires e.Forward? ==> e.irq !in t.stack.irqs
    requires e.Answer? ==> IrqOf(t, e.orq) in t.stack.irqs
    requires Fits(n, i in t.stack.irqs)
    ensures Fits(Few(FinalReplies, Outputs(t, retries, e), i, n), i in TablesAfter(t, retries, e).t.stack.irqs)
  {
    if e.SessionTimer? { ClearDialogIrqs(t, e.leg); }
    var u := TablesAfter(t, retries, e).t;
    assert i in u.stack.irqs <==> i in u.stack.irqs.Keys;
  }

  lemma StepFinals(s: State, e: Event, i: Irq)
    requires Inv(s.t) && EnvOk(s, e) && Fits(Finals(s.log, i), i in s.t.stack.irqs)
    ensures Fits(Finals(Step(s, e).log, i), i in Step(s, e).t.stack.irqs)
  {
    var n := Finals(s.log, i);
    CountStep(FinalReplies, s, e, i);
    if e.InviteResponse? {
      InviteResponseFinals(s, e, i, n);
    } else if e.Originate? || e.Terminate? {
      NewCallFinals(s.t, s.retries, e, i, n);
    } else if e.Cancel? {
      CancelFinals(s.t, s.retries, e, i, n);
    } else if e.Bye? {
      PeerIsInvolution(s.t, e.leg);
      ByeFinals(s.t, s.retries, e, i, n);
    } else {
      DialogFinals(s.t, s.retries, e, i, n);
    }
  }

  /** In every run, whatever handles are used again: every request gets at most one final reply, and
      none while it is still open. */
  lemma {:induction false} RunOneFinalReply(s: State, es: seq<Event>)
    requires OneFinalReply(s) && Inv(s.t) && Legal(s, es)
    ensures OneFinalReply(Exec(s, es))
    decreases |es|
  {
    if es != [] {
      var e, u := es[0], Step(s, es[0]);
      StepKeepsInv(s, e);
      forall i: Irq ensures Fits(Finals(u.log, i), i in u.t.stack.irqs) {
        assert Fits(Finals(s.log, i), i in s.t.stack.irqs);
        StepFinals(s, e, i);
      }
      RunOneFinalReply(u, es[1..]);
    }
  }
}
