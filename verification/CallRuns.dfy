/** What every run of callbacks keeps. */
module CallRuns {
  import opened Options
  import opened CallTables
  import opened CallSteps

  // ---- marking a call as answered ----

  /** No INVITE is pending on the call of A leg `a`. */
  ghost predicate NotPending(t: Tables, a: Leg)
    requires TxnsPaired(t)
  {
    forall o :: o in t.stack.orqs && t.stack.orqs[o].kind == Invite ==> t.stack.irqs[t.txns.right[o]].leg != a
  }

  lemma ClearedIsNotPending(t: Tables, orq: Orq)
    requires Inv(t) && orq in t.stack.orqs && t.stack.orqs[orq].kind == Invite && t.stack.orqs[orq].leg != NULL
    requires Inv(EraseAttempt(ClearTransaction(t, orq), orq))
    ensures NotPending(EraseAttempt(ClearTransaction(t, orq), orq), t.stack.irqs[t.txns.right[orq]].leg)
  {
    var u := EraseAttempt(ClearTransaction(t, orq), orq);
    assert Linked(t, orq);
    forall o | o in u.stack.orqs && u.stack.orqs[o].kind == Invite
      ensures u.stack.irqs[u.txns.right[o]].leg != t.stack.irqs[t.txns.right[orq]].leg
    {
      assert Linked(t, o);
      assert Distinct(t, o, orq);
    }
  }

  lemma AnsweredKeepsInv(t: Tables, a: Leg, timer: bool)
    requires Inv(t) && a in t.infos && t.infos[a].origination && NotPending(t, a)
    ensures Inv(MarkAnswered(t, a, timer))
  {
    var u := MarkAnswered(t, a, timer);
    forall l | l in u.infos ensures InfoOk(u, l) { assert InfoOk(t, l); }
    forall o | o in u.stack.orqs ensures Linked(u, o) { assert Linked(t, o); }
    forall o, p | o in u.stack.orqs && p in u.stack.orqs ensures Distinct(u, o, p) { assert Distinct(t, o, p); }
  }

  lemma AnswerAndClearKeepsInv(t: Tables, a: Leg, timer: bool, orq: Orq)
    requires Inv(t) && orq in t.stack.orqs && a in t.infos && t.infos[a].origination
    requires t.stack.orqs[orq].kind == Invite && t.stack.orqs[orq].leg != NULL
      && t.stack.irqs[t.txns.right[orq]].leg == a
    ensures Inv(EraseAttempt(ClearTransaction(MarkAnswered(t, a, timer), orq), orq))
  {
    var v := EraseAttempt(ClearTransaction(t, orq), orq);
    ClearTransactionKeepsInv(t, orq);
    ClearedIsNotPending(t, orq);
    AnsweredKeepsInv(v, a, timer);
    assert EraseAttempt(ClearTransaction(MarkAnswered(t, a, timer), orq), orq) == MarkAnswered(v, a, timer);
  }

  // ---- one callback ----

  /** An answer to a call's INVITE after its legs are gone. */
  predicate LateAnswer(t: Tables, e: Event) {
    e.InviteResponse? && LegOf(t, e.orq) == NULL
  }

  /** A 200 to a forwarded re-INVITE after its leg is gone. */
  predicate LateReinvite(t: Tables, e: Event) {
    e.Answer? && e.toInvite && e.status == 200 && LegOf(t, e.orq) == NULL
  }

  /** The one fault a callback can meet, if any. */
  function Expected(t: Tables, e: Event): set<Fault> {
    if LateAnswer(t, e) then {InviteLegGone}
    else if LateReinvite(t, e) then {ReinviteLegGone}
    else {}
  }

  lemma NewCallKeepsInv(s: State, e: Event)
    requires Inv(s.t) && EnvOk(s, e) && (e.Originate? || e.Terminate?) && !UncheckedNull(e)
    ensures var o := TablesAfter(s.t, s.retries, e); Inv(o.t) && o.faults == {}
  {
    match e
    case Originate(irq, serverFound, a, b, orq, timerSecs, uuid, now) =>
      if serverFound && a != NULL && b != NULL && orq != NULL {
        AddCallKeepsInv(s.t, irq, a, b, orq, None, NewInfo(a, timerSecs, uuid, now));
      }
    case Terminate(irq, route, a, b, orq, uuid, url, now) =>
      if route.Some? && b != NULL && orq != NULL {
        AddCallKeepsInv(s.t, irq, a, b, orq, Some(NewAttempt(route.value, uuid, url, now)),
            Info(b, false, 0, false, false, None));
      }
  }

  lemma EndedKeepsInv(t: Tables, orq: Orq, b: Leg, status: nat)
    requires Inv(t) && orq in t.stack.orqs && b in t.stack.legs
    ensures Inv(Ended(t, orq, b, status).t) && Ended(t, orq, b, status).faults == {}
  {
    ClearTransactionKeepsInv(t, orq);
    if status != 200 { ClearDialogKeepsInv(EraseAttempt(ClearTransaction(t, orq), orq), b); }
  }

  /** What the end of an INVITE leaves, case by case. */
  lemma AfterEnd(t: Tables, r: Reaction, e: Event)
    requires e.InviteResponse? && (r.Answered? || (r.Tried? && (r.v.Lost? || r.v.GiveUp?)))
    ensures AfterReaction(t, r, e).t ==
      if e.status != 200 then ClearDialog(EraseAttempt(ClearTransaction(t, e.orq), e.orq), r.b).t
      else if r.Tried? then EraseAttempt(ClearTransaction(t, e.orq), e.orq)
      else EraseAttempt(ClearTransaction(MarkAnswered(t, r.a, e.timerMade && r.info.timerSecs > 0), e.orq), e.orq)
  {
  }

  lemma AfterMove(t: Tables, r: Reaction, e: Event)
    requires e.InviteResponse? && r.Tried? && (r.v.Redirect? || r.v.Alternate?)
    ensures AfterReaction(t, r, e) == MoveCall(t, r.irq, e.orq, r.b, e.newOrq, e.b, r.v.x)
  {
  }

  /** What the tables say about the call an INVITE was answered on. */
  lemma ReactionFits(s: State, e: Event)
    requires Inv(s.t) && EnvOk(s, e) && e.InviteResponse?
    ensures var r := React(s.t, s.retries, e);
            && (r.Broken? <==> LateAnswer(s.t, e)) && (r.Broken? ==> r.fault == InviteLegGone)
            && (r.Ringing? ==> r.irq in s.t.stack.irqs && e.status < 200)
            && (r.Answered? ==>
                  && s.t.stack.orqs[e.orq] == OutTxn(Invite, r.b) && r.b in s.t.stack.legs
                    && r.irq == s.t.txns.right[e.orq]
                  && r.irq in s.t.stack.irqs && s.t.stack.irqs[r.irq].leg == r.a && r.a in s.t.infos
                    && r.info == s.t.infos[r.a]
                  && r.info.origination && !r.info.answered && r.info.cdr == Some(r.cdr) && e.orq !in s.t.attempts)
            && (r.Tried? ==>
                  && e.orq in s.t.attempts && r.x == s.t.attempts[e.orq] && s.t.stack.orqs[e.orq] == OutTxn(Invite, r.b)
                  && r.b in s.t.stack.legs && r.irq == s.t.txns.right[e.orq] && r.irq in s.t.stack.irqs
                  && (r.v.Redirect? || r.v.Alternate? ==> e.b != NULL && e.newOrq != NULL))
  {
    assert Linked(s.t, e.orq);
    var a := s.t.stack.irqs[s.t.txns.right[e.orq]].leg;
    if a in s.t.infos { assert InfoOk(s.t, a); }
  }

  lemma AnsweredReactionKeepsInv(s: State, e: Event)
    requires Inv(s.t) && EnvOk(s, e) && e.InviteResponse? && React(s.t, s.retries, e).Answered?
    ensures var o := AfterReaction(s.t, React(s.t, s.retries, e), e); Inv(o.t) && o.faults == {}
  {
    ReactionFits(s, e);
    var r := React(s.t, s.retries, e);
    if e.status == 200 {
      AnswerAndClearKeepsInv(s.t, r.a, e.timerMade && r.info.timerSecs > 0, e.orq);
    } else {
      EndedKeepsInv(s.t, e.orq, r.b, e.status);
    }
  }

  lemma TriedReactionKeepsInv(t: Tables, irq: Irq, b: Leg, x: Attempt, v: Verdict, e: Event)
    requires Inv(t) && e.InviteResponse? && e.orq in t.attempts
    requires t.stack.orqs[e.orq] == OutTxn(Invite, b) && b != NULL && b in t.stack.legs && irq == t.txns.right[e.orq]
    requires v.Redirect? || v.Alternate? ==>
      e.b != NULL && e.b !in t.stack.legs && e.newOrq != NULL && e.newOrq !in t.stack.orqs
    ensures var o := AfterReaction(t, Tried(irq, b, x, v), e); Inv(o.t) && o.faults == {}
  {
    var o := AfterReaction(t, Tried(irq, b, x, v), e);
    if v.Redirect? || v.Alternate? {
      assert o == MoveCall(t, irq, e.orq, b, e.newOrq, e.b, v.x);
      MoveCallKeepsInv(t, irq, e.orq, b, e.newOrq, e.b, v.x);
    } else {
      assert o == Ended(t, e.orq, b, e.status);
      EndedKeepsInv(t, e.orq, b, e.status);
    }
  }

  lemma InviteResponseKeepsInv(s: State, e: Event)
    requires Inv(s.t) && EnvOk(s, e) && e.InviteResponse?
    ensures var o := AfterReaction(s.t, React(s.t, s.retries, e), e); Inv(o.t) && o.faults == Expected(s.t, e)
  {
    ReactionFits(s, e);
    var r := React(s.t, s.retries, e);
    if r.Answered? {
      AnsweredReactionKeepsInv(s, e);
    } else if r.Tried? {
      TriedReactionKeepsInv(s.t, r.irq, r.b, r.x, r.v, e);
    }
  }

  lemma CancelKeepsInv(s: State, e: Event)
    requires Inv(s.t) && EnvOk(s, e) && e.Cancel?
    ensures var o := AfterCancel(s.t, e.irq); Inv(o.t) && o.faults == {}
  {
    var orq := s.t.txns.left[e.irq];
    assert Linked(s.t, orq);
    var leg := ALegOf(s.t, e.irq);
    if leg != NULL {
      ClearTransactionKeepsInv(s.t, orq);
      ClearDialogKeepsInv(EraseAttempt(ClearTransaction(s.t, orq), orq), leg);
    }
  }

  lemma NoAttemptToErase(t: Tables, orq: Orq)
    requires orq !in t.attempts
    ensures EraseAttempt(ClearTransaction(t, orq), orq) == ClearTransaction(t, orq)
  {
    assert t.attempts - {orq} == t.attempts;
  }

  lemma AnswerKeepsInv(s: State, e: Event)
    requires Inv(s.t) && EnvOk(s, e) && e.Answer?
    ensures var o := TablesAfter(s.t, s.retries, e); Inv(o.t) && o.faults == Expected(s.t, e)
  {
    assert Linked(s.t, e.orq);
    ClearTransactionKeepsInv(s.t, e.orq);
    NoAttemptToErase(s.t, e.orq);
  }

  lemma DialogStepKeepsInv(s: State, e: Event)
    requires Inv(s.t) && EnvOk(s, e) && (e.Bye? || e.Forward? || e.SessionTimer?) && !UncheckedNull(e)
    ensures var o := TablesAfter(s.t, s.retries, e); Inv(o.t) && o.faults == {}
  {
    if e.SessionTimer? && e.leg in s.t.infos { assert InfoOk(s.t, e.leg); }
    if e.leg in s.t.stack.legs {
      PeerIsInvolution(s.t, e.leg);
      if e.Forward? {
        AddInDialogKeepsInv(s.t, e.irq, e.orq, Peer(s.t.dialogs, e.leg).value);
      } else {
        ClearDialogKeepsInv(s.t, e.leg);
      }
    }
  }

  lemma NullLegBreaksInv(s: State, e: Event)
    requires Inv(s.t) && EnvOk(s, e) && e.Terminate? && UncheckedNull(e)
    ensures !LegsPaired(TablesAfter(s.t, s.retries, e).t)
  {
    assert s.t.dialogs.CanInsert(NULL, e.b);
    assert NULL in TablesAfter(s.t, s.retries, e).t.dialogs.left;
  }

  lemma NullTransactionBreaksInv(s: State, e: Event)
    requires Inv(s.t) && EnvOk(s, e) && e.Forward? && UncheckedNull(e)
    ensures !TxnsPaired(TablesAfter(s.t, s.retries, e).t)
  {
    PeerIsInvolution(s.t, e.leg);
    assert s.t.txns.CanInsert(e.irq, NULL);
    assert NULL in TablesAfter(s.t, s.retries, e).t.txns.right;
  }

  /** One callback keeps the tables consistent exactly when no unchecked call of the stack returned
      null, and then the only faults it can meet are the two late answers. */
  lemma StepKeepsInv(s: State, e: Event)
    requires Inv(s.t) && EnvOk(s, e)
    ensures Inv(Step(s, e).t) <==> !UncheckedNull(e)
    ensures !UncheckedNull(e) ==> TablesAfter(s.t, s.retries, e).faults == Expected(s.t, e)
  {
    if UncheckedNull(e) {
      if e.Terminate? { NullLegBreaksInv(s, e); } else { NullTransactionBreaksInv(s, e); }
    } else {
      TablesKeepInv(s, e);
      assert Step(s, e).t == TablesAfter(s.t, s.retries, e).t;
    }
  }

  lemma TablesKeepInv(s: State, e: Event)
    requires Inv(s.t) && EnvOk(s, e) && !UncheckedNull(e)
    ensures var o := TablesAfter(s.t, s.retries, e); Inv(o.t) && o.faults == Expected(s.t, e)
  {
    if e.Originate? || e.Terminate? {
      NewCallKeepsInv(s, e);
    } else if e.InviteResponse? {
      InviteResponseKeepsInv(s, e);
    } else if e.Cancel? {
      CancelKeepsInv(s, e);
    } else if e.Answer? {
      AnswerKeepsInv(s, e);
    } else if !e.ResetStats? {
      DialogStepKeepsInv(s, e);
    }
  }

  // ---- every run ----

  function Exec(s: State, es: seq<Event>): State
    decreases |es|
  {
    if es == [] then s else Exec(Step(s, es[0]), es[1..])
  }

  /** A run the environment can produce, without an unchecked null. */
  predicate Legal(s: State, es: seq<Event>)
    decreases |es|
  {
    es == [] || (EnvOk(s, es[0]) && !UncheckedNull(es[0]) && Legal(Step(s, es[0]), es[1..]))
  }

  lemma InitKeepsInv(retries: nat)
    ensures Inv(Init(retries).t)
  {
  }

  /** In every run legs and transactions stay paired with their peers and with the live objects of
      the stack, and no assertion, end dereference or dropped insert is met but the two late answers. */
  lemma {:induction false} RunKeepsInv(s: State, es: seq<Event>)
    requires Inv(s.t) && Legal(s, es)
    ensures Inv(Exec(s, es).t)
    ensures Exec(s, es).faults <= s.faults + {InviteLegGone, ReinviteLegGone}
    decreases |es|
  {
    if es != [] {
      StepKeepsInv(s, es[0]);
      RunKeepsInv(Step(s, es[0]), es[1..]);
    }
  }
}
