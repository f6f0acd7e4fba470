/** An origination that has not been answered has its INVITE pending, so that hanging it up is
    hanging up before the answer. */
module CallAwaited {
  import opened Options
  import opened CallTables
  import opened CallSteps
  import opened CallRuns
  import opened CallFaults
  import opened CallRecords

  /** An INVITE is pending on leg `b`. */
  ghost predicate Invited(t: Tables, b: Leg) { exists o :: o in t.stack.orqs && t.stack.orqs[o] == OutTxn(Invite, b) }

  predicate Unanswered(t: Tables, a: Leg) { a in t.infos && t.infos[a].origination && !t.infos[a].answered }

  ghost predicate Awaited(t: Tables) {
    forall a :: Unanswered(t, a) ==> a in t.dialogs.left && Invited(t, t.dialogs.left[a])
  }

  /** An unanswered call that a change leaves alone stays awaited. */
  lemma StaysAwaited(t: Tables, u: Tables, a: Leg)
    requires Awaited(t) && Unanswered(t, a) && a in u.dialogs.left && a in t.dialogs.left
    requires u.dialogs.left[a] == t.dialogs.left[a]
    requires forall o :: o in t.stack.orqs && t.stack.orqs[o] == OutTxn(Invite, t.dialogs.left[a]) ==>
      o in u.stack.orqs && u.stack.orqs[o] == t.stack.orqs[o]
    ensures Invited(u, u.dialogs.left[a])
  {
    var o :| o in t.stack.orqs && t.stack.orqs[o] == OutTxn(Invite, t.dialogs.left[a]);
    assert o in u.stack.orqs && u.stack.orqs[o] == OutTxn(Invite, u.dialogs.left[a]);
  }

  lemma AddCallAwaited(t: Tables, irq: Irq, a: Leg, b: Leg, orq: Orq, attempt: Option<Attempt>, info: Info)
    requires Inv(t) && NewCall(t, irq, a, b, orq, attempt, info) && Awaited(t)
    ensures Awaited(AddCall(t, irq, a, b, orq, attempt, info).t)
  {
    var u := AddCall(t, irq, a, b, orq, attempt, info).t;
    AddCallEffect(t, irq, a, b, orq, attempt, info);
    forall x | Unanswered(u, x) ensures x in u.dialogs.left && Invited(u, u.dialogs.left[x]) {
      if x == info.leg {
        assert u.stack.orqs[orq] == OutTxn(Invite, b);
      } else {
        assert Unanswered(t, x) && InfoOk(t, x);
        StaysAwaited(t, u, x);
      }
    }
  }

  lemma ClearDialogAwaited(t: Tables, leg: Leg)
    requires LegsPaired(t) && InfosMatch(t) && leg in t.stack.legs && Awaited(t)
    ensures Awaited(ClearDialog(t, leg).t)
  {
    ClearDialogShape(t, leg);
    var u := ClearDialog(t, leg).t;
    forall x | Unanswered(u, x) ensures x in u.dialogs.left && Invited(u, u.dialogs.left[x]) {
      assert Unanswered(t, x) && InfoOk(t, x);
      StaysAwaited(t, u, x);
    }
  }

  /** The end of an INVITE: afterwards either the call is answered or its legs are gone. */
  lemma EndedAwaited(t: Tables, orq: Orq, leg: Leg)
    requires Inv(t) && Awaited(t) && orq in t.stack.orqs && t.stack.orqs[orq].kind == Invite
    requires t.stack.orqs[orq].leg != NULL && leg in Pair(t, orq)
    ensures Awaited(ClearDialog(EraseAttempt(ClearTransaction(t, orq), orq), leg).t)
  {
    var v := EraseAttempt(ClearTransaction(t, orq), orq);
    var u := ClearDialog(v, leg).t;
    assert Linked(t, orq);
    var a, b := ALegOf(t, IrqOf(t, orq)), t.stack.orqs[orq].leg;
    ClearDialogShape(v, leg);
    assert DialogCleared(v, u, a, b);
    forall x | Unanswered(u, x) ensures x in u.dialogs.left && Invited(u, u.dialogs.left[x]) {
      assert Unanswered(t, x) && InfoOk(t, x);
      EndedStaysAwaited(t, v, u, orq, a, b, x);
    }
  }

  lemma EndedStaysAwaited(t: Tables, v: Tables, u: Tables, orq: Orq, a: Leg, b: Leg, x: Leg)
    requires LegsPaired(t) && Awaited(t) && Unanswered(t, x) && x in t.dialogs.left && x != a
    requires v.dialogs == t.dialogs && v.stack.orqs == t.stack.orqs - {orq} && DialogCleared(v, u, a, b)
    requires orq in t.stack.orqs && t.stack.orqs[orq].leg == b
    ensures x in u.dialogs.left && Invited(u, u.dialogs.left[x])
  {
    assert t.dialogs.left[x] != b && t.dialogs.left[x] != a;
    StaysAwaited(t, u, x);
  }

  /** The A and B legs of a pending INVITE. */
  function Pair(t: Tables, orq: Orq): set<Leg>
    requires orq in t.stack.orqs
  {
    {t.stack.orqs[orq].leg, ALegOf(t, IrqOf(t, orq))}
  }

  lemma AnsweredAwaited(t: Tables, a: Leg, timer: bool, orq: Orq)
    requires Inv(t) && Awaited(t) && orq in t.stack.orqs && t.stack.orqs[orq].kind == Invite
    requires t.stack.orqs[orq].leg != NULL && ALegOf(t, IrqOf(t, orq)) == a && a in t.infos
    ensures Awaited(EraseAttempt(ClearTransaction(MarkAnswered(t, a, timer), orq), orq))
  {
    var u := EraseAttempt(ClearTransaction(MarkAnswered(t, a, timer), orq), orq);
    assert Linked(t, orq);
    forall x | Unanswered(u, x) ensures x in u.dialogs.left && Invited(u, u.dialogs.left[x]) {
      assert Unanswered(t, x) && InfoOk(t, x);
      assert t.dialogs.left[x] != t.stack.orqs[orq].leg;
      StaysAwaited(t, u, x);
    }
  }

  /** A termination's INVITE never is the one an origination waits for. */
  lemma TriedAwaited(t: Tables, orq: Orq)
    requires Inv(t) && Awaited(t) && orq in t.attempts && t.stack.orqs[orq].kind == Invite
      && t.stack.orqs[orq].leg != NULL
    ensures Awaited(EraseAttempt(ClearTransaction(t, orq), orq))
  {
    var u := EraseAttempt(ClearTransaction(t, orq), orq);
    assert Linked(t, orq);
    forall x | Unanswered(u, x) ensures x in u.dialogs.left && Invited(u, u.dialogs.left[x]) {
      assert Unanswered(t, x) && InfoOk(t, x);
      assert t.dialogs.left[x] != t.stack.orqs[orq].leg;
      StaysAwaited(t, u, x);
    }
  }

  lemma MoveCallAwaited(t: Tables, irq: Irq, orq: Orq, oldB: Leg, newOrq: Orq, newB: Leg, attempt: Attempt)
    requires Inv(t) && Awaited(t)
    requires orq in t.attempts && t.stack.orqs[orq] == OutTxn(Invite, oldB) && oldB != NULL
    requires irq == t.txns.right[orq]
    requires newOrq !in t.stack.orqs && newOrq != NULL && newB !in t.stack.legs && newB != NULL
    ensures Awaited(MoveCall(t, irq, orq, oldB, newOrq, newB, attempt).t)
  {
    MoveCallEffect(t, irq, orq, oldB, newOrq, newB, attempt);
    assert Linked(t, orq);
    var u := MoveCall(t, irq, orq, oldB, newOrq, newB, attempt).t;
    var a := t.stack.irqs[irq].leg;
    assert a !in t.infos;
    ReplacedAwaited(t, u, irq, a, orq, oldB, newOrq, newB, attempt);
  }

  lemma ReplacedAwaited(t: Tables, u: Tables, irq: Irq, a: Leg, orq: Orq, oldB: Leg, newOrq: Orq, newB: Leg,
      attempt: Attempt)
    requires LegsPaired(t) && InfosMatch(t) && Awaited(t) && a !in t.infos && LegReplaced(t, u, a, oldB, newB)
    requires InviteReplaced(t, u, irq, orq, oldB, newOrq, newB, attempt) && orq in t.stack.orqs
      && t.stack.orqs[orq].leg == oldB
    ensures Awaited(u)
  {
    forall x | Unanswered(u, x) ensures x in u.dialogs.left && Invited(u, u.dialogs.left[x]) {
      assert x != newB && x != a;
      assert Unanswered(t, x) && InfoOk(t, x);
      assert t.dialogs.left[x] != oldB;
      forall o | o in t.stack.orqs && t.stack.orqs[o] == OutTxn(Invite, t.dialogs.left[x])
        ensures o in u.stack.orqs && u.stack.orqs[o] == t.stack.orqs[o]
      {
        assert o != orq && o != newOrq;
      }
      StaysAwaited(t, u, x);
    }
  }

  lemma ReactionAwaited(s: State, e: Event)
    requires Inv(s.t) && EnvOk(s, e) && e.InviteResponse? && Awaited(s.t)
    ensures Awaited(AfterReaction(s.t, React(s.t, s.retries, e), e).t)
  {
    ReactionFits(s, e);
    var r := React(s.t, s.retries, e);
    if r.Tried? && (r.v.Redirect? || r.v.Alternate?) {
      AfterMove(s.t, r, e);
      MoveCallAwaited(s.t, r.irq, e.orq, r.b, e.newOrq, e.b, r.v.x);
    } else if r.Tried? || r.Answered? {
      EndedReactionAwaited(s.t, r, e);
    }
  }

  lemma EndedReactionAwaited(t: Tables, r: Reaction, e: Event)
    requires Inv(t) && Awaited(t) && e.InviteResponse? && (r.Answered? || (r.Tried? && (r.v.Lost? || r.v.GiveUp?)))
    requires e.orq in t.stack.orqs && t.stack.orqs[e.orq] == OutTxn(Invite, r.b) && r.b != NULL
    requires r.Tried? ==> e.orq in t.attempts
    requires r.Answered? ==> r.a in t.infos && ALegOf(t, IrqOf(t, e.orq)) == r.a
    ensures Awaited(AfterReaction(t, r, e).t)
  {
    AfterEnd(t, r, e);
    if e.status != 200 {
      EndedAwaited(t, e.orq, r.b);
    } else if r.Tried? {
      TriedAwaited(t, e.orq);
    } else {
      AnsweredAwaited(t, r.a, e.timerMade && r.info.timerSecs > 0, e.orq);
    }
  }

  lemma CancelAwaited(s: State, e: Event)
    requires Inv(s.t) && EnvOk(s, e) && e.Cancel? && Awaited(s.t)
    ensures Awaited(AfterCancel(s.t, e.irq).t)
  {
    var orq := s.t.txns.left[e.irq];
    assert Linked(s.t, orq);
    if ALegOf(s.t, e.irq) != NULL { EndedAwaited(s.t, orq, ALegOf(s.t, e.irq)); }
  }

  lemma NewCallAwaited(s: State, e: Event)
    requires Inv(s.t) && EnvOk(s, e) && !UncheckedNull(e) && Awaited(s.t) && (e.Originate? || e.Terminate?)
    ensures Awaited(TablesAfter(s.t, s.retries, e).t)
  {
    match e
    case Originate(irq, serverFound, a, b, orq, timerSecs, uuid, now) =>
      if serverFound && a != NULL && b != NULL && orq != NULL {
        AddCallAwaited(s.t, irq, a, b, orq, None, NewInfo(a, timerSecs, uuid, now));
      }
    case Terminate(irq, route, a, b, orq, uuid, url, now) =>
      if route.Some? && b != NULL && orq != NULL {
        AddCallAwaited(s.t, irq, a, b, orq, Some(NewAttempt(route.value, uuid, url, now)),
            Info(b, false, 0, false, false, None));
      }
  }

  lemma InDialogAwaited(s: State, e: Event)
    requires Inv(s.t) && EnvOk(s, e) && !UncheckedNull(e) && Awaited(s.t) && (e.Forward? || e.Answer? || e.ResetStats?)
    ensures Awaited(TablesAfter(s.t, s.retries, e).t)
  {
    if e.Forward? {
      PeerIsInvolution(s.t, e.leg);
      ForwardedAwaited(s.t, e.irq, e.orq, Peer(s.t.dialogs, e.leg).value);
    } else if e.Answer? {
      assert Linked(s.t, e.orq);
      ClearedRequestAwaited(s.t, e.orq);
    }
  }

  lemma ForwardedAwaited(t: Tables, irq: Irq, orq: Orq, other: Leg)
    requires Awaited(t) && orq !in t.stack.orqs
    ensures Awaited(AddInDialog(t, irq, orq, other).t)
  {
    MoreTransactionsAwaited(t, AddInDialog(t, irq, orq, other).t);
  }

  lemma ClearedRequestAwaited(t: Tables, orq: Orq)
    requires Awaited(t) && orq in t.stack.orqs && t.stack.orqs[orq].kind == InDialog
    ensures Awaited(ClearTransaction(t, orq))
  {
    MoreTransactionsAwaited(t, ClearTransaction(t, orq));
  }

  lemma MoreTransactionsAwaited(t: Tables, u: Tables)
    requires Awaited(t) && u.infos == t.infos && u.dialogs == t.dialogs
    requires forall o :: o in t.stack.orqs && t.stack.orqs[o].kind == Invite ==>
      o in u.stack.orqs && u.stack.orqs[o] == t.stack.orqs[o]
    ensures Awaited(u)
  {
    forall x | Unanswered(u, x) ensures x in u.dialogs.left && Invited(u, u.dialogs.left[x]) {
      assert Unanswered(t, x);
      StaysAwaited(t, u, x);
    }
  }

  lemma ClearedAwaited(s: State, e: Event)
    requires Inv(s.t) && EnvOk(s, e) && Awaited(s.t) && (e.Bye? || e.SessionTimer?)
    ensures Awaited(TablesAfter(s.t, s.retries, e).t)
  {
    if e.SessionTimer? && e.leg in s.t.infos { assert InfoOk(s.t, e.leg); }
    if e.leg in s.t.stack.legs { ClearDialogAwaited(s.t, e.leg); }
  }

  lemma StepAwaited(s: State, e: Event)
    requires Inv(s.t) && EnvOk(s, e) && !UncheckedNull(e) && Awaited(s.t)
    ensures Awaited(Step(s, e).t)
  {
    assert Step(s, e).t == TablesAfter(s.t, s.retries, e).t;
    if e.InviteResponse? {
      ReactionAwaited(s, e);
    } else if e.Cancel? {
      CancelAwaited(s, e);
    } else if e.Originate? || e.Terminate? {
      NewCallAwaited(s, e);
    } else if e.Bye? || e.SessionTimer? {
      ClearedAwaited(s, e);
    } else {
      InDialogAwaited(s, e);
    }
  }

  /** Hanging up an unanswered origination is hanging up while its INVITE is pending. */
  lemma UnansweredIsEarly(s: State, e: Event)
    requires Inv(s.t) && EnvOk(s, e) && Awaited(s.t) && UnansweredBye(s.t, e)
    ensures EarlyBye(s, e)
  {
    PeerIsInvolution(s.t, e.leg);
    var a := if Unanswered(s.t, e.leg) then e.leg else Peer(s.t.dialogs, e.leg).value;
    assert Unanswered(s.t, a);
    var o :| o in s.t.stack.orqs && s.t.stack.orqs[o] == OutTxn(Invite, s.t.dialogs.left[a]);
    assert s.t.stack.orqs[o].kind == Invite;
  }

  lemma {:induction false} NoEarlyByeSuffices(s: State, es: seq<Event>)
    requires Inv(s.t) && Awaited(s.t) && Legal(s, es) && NoEarlyBye(s, es)
    ensures NoUnansweredBye(s, es)
    decreases |es|
  {
    if es != [] {
      StepKeepsInv(s, es[0]);
      StepAwaited(s, es[0]);
      if UnansweredBye(s.t, es[0]) { UnansweredIsEarly(s, es[0]); }
      NoEarlyByeSuffices(Step(s, es[0]), es[1..]);
    }
  }
}
