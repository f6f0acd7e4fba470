/** When a request forwarded inside a dialog can find its leg gone, and runs without any fault. */
module CallForwards {
  import opened CallTables
  import opened CallSteps
  import opened CallRuns
  import opened CallFaults

  /** Every pending in-dialog transaction still has its leg. */
  ghost predicate ForwardsHaveLegs(t: Tables) {
    forall o :: o in t.stack.orqs && t.stack.orqs[o].kind == InDialog ==> t.stack.orqs[o].leg != NULL
  }

  /** A leg and its peer. */
  function Pair(t: Tables, l: Leg): set<Leg> {
    match Peer(t.dialogs, l)
    case None => {l}
    case Some(other) => {l, other}
  }

  /** The legs a callback takes down. */
  function Torn(s: State, e: Event): set<Leg> {
    match e
    case Bye(leg, _, _) => Pair(s.t, leg)
    case SessionTimer(leg) => if leg in s.t.infos then Pair(s.t, leg) else {}
    case Cancel(irq, _) => if ALegOf(s.t, irq) == NULL then {} else Pair(s.t, ALegOf(s.t, irq))
    case InviteResponse(_, status, _, _, _, _, _, _) => TornBy(s.t, React(s.t, s.retries, e), status)
    case _ => {}
  }

  /** An answer takes the old B leg with it when the call moves, and both legs unless it is a 200. */
  function TornBy(t: Tables, r: Reaction, status: nat): set<Leg> {
    if r.Tried? && (r.v.Redirect? || r.v.Alternate?) then {r.b}
    else if (r.Tried? || r.Answered?) && status != 200 then Pair(t, r.b)
    else {}
  }

  /** A forwarded request is pending on a leg that this callback takes down. */
  ghost predicate CutsForward(s: State, e: Event) {
    exists o :: o in s.t.stack.orqs && s.t.stack.orqs[o].kind == InDialog && s.t.stack.orqs[o].leg in Torn(s, e)
  }

  /** `u` has the in-dialog transactions of `t`, without their leg where it was torn. */
  ghost predicate Cut(t: Tables, u: Tables, torn: set<Leg>) {
    forall o :: o in t.stack.orqs && t.stack.orqs[o].kind == InDialog ==>
      && o in u.stack.orqs && u.stack.orqs[o].kind == InDialog
      && u.stack.orqs[o].leg == if t.stack.orqs[o].leg in torn then NULL else t.stack.orqs[o].leg
  }

  /** `u` has no other in-dialog transactions than `t`. */
  ghost predicate NoneNew(t: Tables, u: Tables) {
    forall o :: o in u.stack.orqs && u.stack.orqs[o].kind == InDialog ==>
      o in t.stack.orqs && t.stack.orqs[o].kind == InDialog
  }

  lemma ClearDialogCuts(t: Tables, leg: Leg)
    requires LegsPaired(t) && leg in t.stack.legs
    ensures Cut(t, ClearDialog(t, leg).t, Pair(t, leg)) && NoneNew(t, ClearDialog(t, leg).t)
  {
    ClearDialogShape(t, leg);
    PeerIsInvolution(t, leg);
  }

  lemma EndedCallCuts(t: Tables, orq: Orq, leg: Leg)
    requires LegsPaired(t) && leg in t.stack.legs && orq in t.stack.orqs && t.stack.orqs[orq].kind == Invite
    ensures var u := ClearDialog(EraseAttempt(ClearTransaction(t, orq), orq), leg).t;
      Cut(t, u, Pair(t, leg)) && NoneNew(t, u)
  {
    ClearDialogCuts(EraseAttempt(ClearTransaction(t, orq), orq), leg);
  }

  lemma MoveCallCuts(t: Tables, irq: Irq, orq: Orq, oldB: Leg, newOrq: Orq, newB: Leg, x: Attempt)
    requires Inv(t) && orq in t.attempts && t.stack.orqs[orq] == OutTxn(Invite, oldB) && oldB != NULL
    requires irq == t.txns.right[orq]
    requires newOrq !in t.stack.orqs && newOrq != NULL && newB !in t.stack.legs && newB != NULL
    ensures var u := MoveCall(t, irq, orq, oldB, newOrq, newB, x).t; Cut(t, u, {oldB}) && NoneNew(t, u)
  {
    MoveCallEffect(t, irq, orq, oldB, newOrq, newB, x);
    ReplacedCuts(t, MoveCall(t, irq, orq, oldB, newOrq, newB, x).t, irq, orq, oldB, newOrq, newB, x);
  }

  lemma ReplacedCuts(t: Tables, u: Tables, irq: Irq, orq: Orq, oldB: Leg, newOrq: Orq, newB: Leg, x: Attempt)
    requires InviteReplaced(t, u, irq, orq, oldB, newOrq, newB, x)
    requires orq in t.stack.orqs && t.stack.orqs[orq].kind == Invite
    ensures Cut(t, u, {oldB}) && NoneNew(t, u)
  {
    forall o | o in t.stack.orqs && t.stack.orqs[o].kind == InDialog
      ensures o in u.stack.orqs && u.stack.orqs[o] == t.stack.orqs[o].(leg := Detach(t.stack.orqs[o].leg, oldB, oldB))
    {
      assert o != orq && o != newOrq;
    }
  }

  lemma ReactionCuts(s: State, e: Event)
    requires Inv(s.t) && EnvOk(s, e) && e.InviteResponse?
    ensures var u := AfterReaction(s.t, React(s.t, s.retries, e), e).t; Cut(s.t, u, Torn(s, e)) && NoneNew(s.t, u)
  {
    ReactionFits(s, e);
    var r := React(s.t, s.retries, e);
    if r.Tried? && (r.v.Redirect? || r.v.Alternate?) {
      AfterMove(s.t, r, e);
      MoveCallCuts(s.t, r.irq, e.orq, r.b, e.newOrq, e.b, r.v.x);
    } else if r.Tried? || r.Answered? {
      EndedCuts(s.t, r, e);
    }
  }

  lemma EndedCuts(t: Tables, r: Reaction, e: Event)
    requires LegsPaired(t) && e.InviteResponse? && e.orq in t.stack.orqs && t.stack.orqs[e.orq].kind == Invite
    requires (r.Answered? || (r.Tried? && (r.v.Lost? || r.v.GiveUp?))) && r.b in t.stack.legs
    ensures var u := AfterReaction(t, r, e).t; Cut(t, u, TornBy(t, r, e.status)) && NoneNew(t, u)
  {
    EndedCallCuts(t, e.orq, r.b);
    EndedOrqs(t, r, e);
  }

  lemma EndedOrqs(t: Tables, r: Reaction, e: Event)
    requires e.InviteResponse? && (r.Answered? || (r.Tried? && (r.v.Lost? || r.v.GiveUp?)))
    ensures AfterReaction(t, r, e).t.stack.orqs ==
      if e.status != 200 then ClearDialog(EraseAttempt(ClearTransaction(t, e.orq), e.orq), r.b).t.stack.orqs
      else t.stack.orqs - {e.orq}
  {
  }

  lemma CancelCuts(s: State, e: Event)
    requires Inv(s.t) && EnvOk(s, e) && e.Cancel?
    ensures var u := AfterCancel(s.t, e.irq).t; Cut(s.t, u, Torn(s, e)) && NoneNew(s.t, u)
  {
    var orq := s.t.txns.left[e.irq];
    assert Linked(s.t, orq);
    if ALegOf(s.t, e.irq) != NULL { EndedCallCuts(s.t, orq, ALegOf(s.t, e.irq)); }
  }

  lemma DialogCuts(s: State, e: Event)
    requires Inv(s.t) && EnvOk(s, e) && (e.Bye? || e.SessionTimer?)
    ensures var u := TablesAfter(s.t, s.retries, e).t; Cut(s.t, u, Torn(s, e)) && NoneNew(s.t, u)
  {
    if e.SessionTimer? && e.leg in s.t.infos { assert InfoOk(s.t, e.leg); }
    if e.leg in s.t.stack.legs {
      PeerIsInvolution(s.t, e.leg);
      ClearDialogCuts(s.t, e.leg);
    }
  }

  lemma OthersKeepForwards(s: State, e: Event)
    requires Inv(s.t) && EnvOk(s, e) && !UncheckedNull(e) && ForwardsHaveLegs(s.t)
    requires e.Originate? || e.Terminate? || e.Forward? || e.Answer? || e.ResetStats?
    ensures ForwardsHaveLegs(TablesAfter(s.t, s.retries, e).t)
  {
    if e.Forward? {
      PeerIsInvolution(s.t, e.leg);
      ForwardKeepsForwards(s.t, e.irq, e.orq, Peer(s.t.dialogs, e.leg).value);
    } else if e.Originate? || e.Terminate? {
      NewCallKeepsForwards(s.t, s.retries, e);
    }
  }

  lemma ForwardKeepsForwards(t: Tables, irq: Irq, orq: Orq, other: Leg)
    requires ForwardsHaveLegs(t) && other != NULL
    ensures ForwardsHaveLegs(AddInDialog(t, irq, orq, other).t)
  {
  }

  lemma NewCallKeepsForwards(t: Tables, retries: nat, e: Event)
    requires ForwardsHaveLegs(t) && (e.Originate? || e.Terminate?)
    ensures ForwardsHaveLegs(TablesAfter(t, retries, e).t)
  {
  }

  lemma CutIff(t: Tables, u: Tables, torn: set<Leg>)
    requires ForwardsHaveLegs(t) && Cut(t, u, torn) && NoneNew(t, u)
    ensures ForwardsHaveLegs(u) <==>
      forall o :: o in t.stack.orqs && t.stack.orqs[o].kind == InDialog ==> t.stack.orqs[o].leg !in torn
  {
    forall o | o in t.stack.orqs && t.stack.orqs[o].kind == InDialog
      ensures t.stack.orqs[o].leg in torn <==> u.stack.orqs[o].leg == NULL
    {
    }
  }

  /** Taking down a leg with a forwarded request pending on it is the one thing that leaves such a
      request without its leg. */
  lemma StepKeepsForwards(s: State, e: Event)
    requires Inv(s.t) && EnvOk(s, e) && !UncheckedNull(e) && ForwardsHaveLegs(s.t)
    ensures ForwardsHaveLegs(Step(s, e).t) <==> !CutsForward(s, e)
  {
    var u := TablesAfter(s.t, s.retries, e).t;
    assert Step(s, e).t == u;
    if e.Originate? || e.Terminate? || e.Forward? || e.Answer? || e.ResetStats? {
      OthersKeepForwards(s, e);
    } else {
      if e.InviteResponse? {
        ReactionCuts(s, e);
      } else if e.Cancel? {
        CancelCuts(s, e);
      } else {
        DialogCuts(s, e);
      }
      CutIff(s.t, u, Torn(s, e));
    }
  }

  ghost predicate NoCutForward(s: State, es: seq<Event>)
    decreases |es|
  {
    es == [] || (!CutsForward(s, es[0]) && NoCutForward(Step(s, es[0]), es[1..]))
  }

  /** With no call hung up before its answer and none taken down under a forwarded request, no
      assertion is met at all. */
  lemma {:induction false} RunMeetsNoFault(s: State, es: seq<Event>)
    requires Inv(s.t) && HasLegs(s.t) && ForwardsHaveLegs(s.t)
    requires Legal(s, es) && NoEarlyBye(s, es) && NoCutForward(s, es)
    ensures Exec(s, es).faults == s.faults
    decreases |es|
  {
    if es != [] {
      StepKeepsInv(s, es[0]);
      StepKeepsLegs(s, es[0]);
      StepKeepsForwards(s, es[0]);
      assert Expected(s.t, es[0]) == {};
      RunMeetsNoFault(Step(s, es[0]), es[1..]);
    }
  }
}
