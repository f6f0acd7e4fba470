/** When an answer to a call's INVITE can find its legs gone. */
module CallFaults {
  import opened Options
  import opened CallTables
  import opened CallSteps
  import opened CallRuns

  /** Every pending INVITE still has its leg. */
  ghost predicate HasLegs(t: Tables) {
    forall o :: o in t.stack.orqs && t.stack.orqs[o].kind == Invite ==> t.stack.orqs[o].leg != NULL
  }

  /** An INVITE is pending on `leg` or on its peer. */
  ghost predicate PendingOn(t: Tables, leg: Leg) {
    exists o :: o in t.stack.orqs && t.stack.orqs[o].kind == Invite
                && (t.stack.orqs[o].leg == leg || Peer(t.dialogs, leg) == Some(t.stack.orqs[o].leg))
  }

  /** Hanging up a call that has not been answered. */
  ghost predicate EarlyBye(s: State, e: Event) { e.Bye? && PendingOn(s.t, e.leg) }

  lemma ClearDialogLegs(t: Tables, leg: Leg)
    requires Inv(t) && leg in t.stack.legs && HasLegs(t)
    ensures HasLegs(ClearDialog(t, leg).t) <==> !PendingOn(t, leg)
  {
    ClearDialogShape(t, leg);
    PeerIsInvolution(t, leg);
    var u := ClearDialog(t, leg).t;
    if PendingOn(t, leg) {
      var o :| o in t.stack.orqs && t.stack.orqs[o].kind == Invite
               && (t.stack.orqs[o].leg == leg || Peer(t.dialogs, leg) == Some(t.stack.orqs[o].leg));
      assert o in u.stack.orqs && u.stack.orqs[o] == OutTxn(Invite, NULL);
    }
  }

  /** Once its transaction is cleared, a call has no other pending INVITE. */
  lemma ClearedCallNotPending(t: Tables, orq: Orq, leg: Leg)
    requires Inv(t) && orq in t.stack.orqs && t.stack.orqs[orq].kind == Invite && t.stack.orqs[orq].leg != NULL
    requires leg == t.stack.orqs[orq].leg || leg == t.stack.irqs[t.txns.right[orq]].leg
    ensures !PendingOn(EraseAttempt(ClearTransaction(t, orq), orq), leg)
  {
    assert Linked(t, orq);
    var u := EraseAttempt(ClearTransaction(t, orq), orq);
    forall o | o in u.stack.orqs && u.stack.orqs[o].kind == Invite
      ensures u.stack.orqs[o].leg != leg && Peer(u.dialogs, leg) != Some(u.stack.orqs[o].leg)
    {
      assert Linked(t, o);
      assert Distinct(t, o, orq);
    }
  }

  lemma EndedCallLegs(t: Tables, orq: Orq, leg: Leg)
    requires Inv(t) && HasLegs(t) && orq in t.stack.orqs && t.stack.orqs[orq].kind == Invite
    requires leg == t.stack.orqs[orq].leg || leg == t.stack.irqs[t.txns.right[orq]].leg
    ensures HasLegs(ClearDialog(EraseAttempt(ClearTransaction(t, orq), orq), leg).t)
  {
    assert Linked(t, orq);
    ClearTransactionKeepsInv(t, orq);
    ClearedCallNotPending(t, orq, leg);
    ClearDialogLegs(EraseAttempt(ClearTransaction(t, orq), orq), leg);
  }

  lemma MoveCallLegs(t: Tables, irq: Irq, orq: Orq, oldB: Leg, newOrq: Orq, newB: Leg, attempt: Attempt)
    requires Inv(t) && HasLegs(t) && orq in t.attempts && t.stack.orqs[orq] == OutTxn(Invite, oldB)
    requires irq == t.txns.right[orq]
    requires newOrq !in t.stack.orqs && newOrq != NULL && newB !in t.stack.legs && newB != NULL
    ensures HasLegs(MoveCall(t, irq, orq, oldB, newOrq, newB, attempt).t)
  {
    MoveCallEffect(t, irq, orq, oldB, newOrq, newB, attempt);
    var u := MoveCall(t, irq, orq, oldB, newOrq, newB, attempt).t;
    forall o | o in u.stack.orqs && u.stack.orqs[o].kind == Invite ensures u.stack.orqs[o].leg != NULL {
      if o != newOrq { assert Distinct(t, o, orq); }
    }
  }

  lemma TimedCallNotPending(t: Tables, leg: Leg)
    requires Inv(t) && leg in t.infos && t.infos[leg].timer
    ensures !PendingOn(t, leg)
  {
    assert InfoOk(t, leg);
    forall o | o in t.stack.orqs && t.stack.orqs[o].kind == Invite
      ensures t.stack.orqs[o].leg != leg && Peer(t.dialogs, leg) != Some(t.stack.orqs[o].leg)
    {
      assert Linked(t, o);
    }
  }

  lemma EndedLegs(t: Tables, orq: Orq, b: Leg, status: nat)
    requires Inv(t) && HasLegs(t) && orq in t.stack.orqs && t.stack.orqs[orq] == OutTxn(Invite, b)
    ensures HasLegs(Ended(t, orq, b, status).t)
  {
    EndedCallLegs(t, orq, b);
  }

  lemma InviteResponseLegs(s: State, e: Event)
    requires Inv(s.t) && EnvOk(s, e) && e.InviteResponse? && HasLegs(s.t)
    ensures HasLegs(AfterReaction(s.t, React(s.t, s.retries, e), e).t)
  {
    ReactionFits(s, e);
    var r := React(s.t, s.retries, e);
    var o := AfterReaction(s.t, r, e);
    if r.Answered? {
      EndedLegs(s.t, e.orq, r.b, e.status);
      assert o.t.stack == Ended(s.t, e.orq, r.b, e.status).t.stack;
    } else if r.Tried? {
      if r.v.Redirect? || r.v.Alternate? {
        assert o == MoveCall(s.t, r.irq, e.orq, r.b, e.newOrq, e.b, r.v.x);
        MoveCallLegs(s.t, r.irq, e.orq, r.b, e.newOrq, e.b, r.v.x);
      } else {
        assert o == Ended(s.t, e.orq, r.b, e.status);
        EndedLegs(s.t, e.orq, r.b, e.status);
      }
    }
  }

  lemma NewCallLegs(t: Tables, irq: Irq, a: Leg, b: Leg, orq: Orq, attempt: Option<Attempt>, info: Info)
    requires HasLegs(t) && b != NULL
    ensures HasLegs(AddCall(t, irq, a, b, orq, attempt, info).t)
  {
  }

  lemma ByeLegs(s: State, e: Event)
    requires Inv(s.t) && EnvOk(s, e) && HasLegs(s.t) && e.Bye?
    ensures HasLegs(Step(s, e).t) <==> !EarlyBye(s, e)
  {
    PeerIsInvolution(s.t, e.leg);
    assert Step(s, e).t == ClearDialog(s.t, e.leg).t;
    ClearDialogLegs(s.t, e.leg);
  }

  lemma SessionTimerLegs(s: State, e: Event)
    requires Inv(s.t) && EnvOk(s, e) && HasLegs(s.t) && e.SessionTimer?
    ensures HasLegs(Step(s, e).t)
  {
    if e.leg in s.t.infos {
      assert InfoOk(s.t, e.leg);
      PeerIsInvolution(s.t, e.leg);
      assert Step(s, e).t == ClearDialog(s.t, e.leg).t;
      TimedCallNotPending(s.t, e.leg);
      ClearDialogLegs(s.t, e.leg);
    }
  }

  lemma CancelLegs(s: State, e: Event)
    requires Inv(s.t) && EnvOk(s, e) && HasLegs(s.t) && e.Cancel?
    ensures HasLegs(AfterCancel(s.t, e.irq).t)
  {
    assert Linked(s.t, s.t.txns.left[e.irq]);
    EndedCallLegs(s.t, s.t.txns.left[e.irq], s.t.stack.irqs[e.irq].leg);
  }

  lemma NewStepLegs(s: State, e: Event)
    requires HasLegs(s.t) && (e.Originate? || e.Terminate? || e.Forward? || e.Answer?)
    ensures HasLegs(TablesAfter(s.t, s.retries, e).t)
  {
    match e
    case Originate(irq, _, a, b, orq, timerSecs, uuid, now) =>
      if b != NULL { NewCallLegs(s.t, irq, a, b, orq, None, NewInfo(a, timerSecs, uuid, now)); }
    case Terminate(irq, route, a, b, orq, uuid, url, now) =>
      if route.Some? && b != NULL {
        NewCallLegs(s.t, irq, a, b, orq, Some(NewAttempt(route.value, uuid, url, now)),
            Info(b, false, 0, false, false, None));
      }
    case Forward(_, _, _) =>
    case Answer(_, _, _) =>
  }

  /** Hanging up an unanswered call is the one thing that leaves a pending INVITE without legs. */
  lemma StepKeepsLegs(s: State, e: Event)
    requires Inv(s.t) && EnvOk(s, e) && !UncheckedNull(e) && HasLegs(s.t)
    ensures HasLegs(Step(s, e).t) <==> !EarlyBye(s, e)
  {
    match e
    case InviteResponse(_, _, _, _, _, _, _, _) => InviteResponseLegs(s, e);
    case Cancel(_, _) => CancelLegs(s, e);
    case Bye(_, _, _) => ByeLegs(s, e);
    case SessionTimer(_) => SessionTimerLegs(s, e);
    case ResetStats =>
    case _ => NewStepLegs(s, e);
  }

  /** After hanging up an unanswered call, whatever answers its INVITE finds the leg gone. */
  lemma EarlyByeFaults(s: State, e: Event, r: Event)
    requires Inv(s.t) && EnvOk(s, e) && e.Bye? && r.InviteResponse? && EnvOk(Step(s, e), r)
    requires r.orq in s.t.stack.orqs
    requires s.t.stack.orqs[r.orq].leg == e.leg || Peer(s.t.dialogs, e.leg) == Some(s.t.stack.orqs[r.orq].leg)
    ensures InviteLegGone in Step(Step(s, e), r).faults
  {
    var d := Step(s, e);
    ClearDialogShape(s.t, e.leg);
    PeerIsInvolution(s.t, e.leg);
    assert d.t == ClearDialog(s.t, e.leg).t;
    assert LegOf(d.t, r.orq) == NULL;
    StepKeepsInv(s, e);
    StepKeepsInv(d, r);
    assert Linked(d.t, r.orq);
  }

  ghost predicate NoEarlyBye(s: State, es: seq<Event>)
    decreases |es|
  {
    es == [] || (!EarlyBye(s, es[0]) && NoEarlyBye(Step(s, es[0]), es[1..]))
  }

  /** Without a BYE for an unanswered call, the answer to an INVITE always finds its legs. */
  lemma {:induction false} RunFindsLegs(s: State, es: seq<Event>)
    requires Inv(s.t) && HasLegs(s.t) && Legal(s, es) && NoEarlyBye(s, es)
    ensures HasLegs(Exec(s, es).t)
    ensures Exec(s, es).faults <= s.faults + {ReinviteLegGone}
    decreases |es|
  {
    if es != [] {
      StepKeepsInv(s, es[0]);
      StepKeepsLegs(s, es[0]);
      RunFindsLegs(Step(s, es[0]), es[1..]);
    }
  }
}
