/** Conservation over whole runs: termination records against the INVITEs sent. */
module CallAccounting {
  import opened CallTables
  import opened CallSteps
  import opened CallRuns

  /** The sum of a weight over the log. */
  function Tally(log: seq<Output>, w: Output -> int): int {
    if log == [] then 0 else Tally(log[..|log| - 1], w) + w(log[|log| - 1])
  }

  lemma {:induction false} TallyAppend(log: seq<Output>, more: seq<Output>, w: Output -> int)
    ensures Tally(log + more, w) == Tally(log, w) + Tally(more, w)
  {
    if more == [] {
      assert log + more == log;
    } else {
      var n := |more| - 1;
      assert (log + more)[..|log + more| - 1] == log + more[..n];
      TallyAppend(log, more[..n], w);
    }
  }

  /** The sum over the few outputs of one step. */
  function Short(o: seq<Output>, w: Output -> int): int {
    if |o| == 0 then 0
    else if |o| == 1 then w(o[0])
    else if |o| == 2 then w(o[0]) + w(o[1])
    else if |o| == 3 then w(o[0]) + w(o[1]) + w(o[2])
    else if |o| == 4 then w(o[0]) + w(o[1]) + w(o[2]) + w(o[3])
    else Tally(o, w)
  }

  lemma TallyShort(o: seq<Output>, w: Output -> int)
    ensures Tally(o, w) == Short(o, w)
  {
    if 0 < |o| <= 4 {
      assert Tally(o[..0], w) == 0;
      assert o[..1][..0] == o[..0];
      if 1 < |o| { assert o[..2][..1] == o[..1]; }
      if 2 < |o| { assert o[..3][..2] == o[..2]; }
      if 3 < |o| { assert o[..4][..3] == o[..3]; }
      assert o[..|o|] == o;
    }
  }

  /** How one step changes a tally. */
  lemma TallyStep(s: State, e: Event, w: Output -> int)
    ensures Tally(Step(s, e).log, w) == Tally(s.log, w) + Short(Outputs(s.t, s.retries, e), w)
  {
    TallyAppend(s.log, Outputs(s.t, s.retries, e), w);
    TallyShort(Outputs(s.t, s.retries, e), w);
  }

  // ---- termination records ----

  function TerminationInvites(): Output -> int { (o: Output) => if o.InviteSent? && o.why != ToServer then 1 else 0 }
  function RedirectedInvites(): Output -> int { (o: Output) => if o.InviteSent? && o.why == Redirected then 1 else 0 }
  function LostAlternates(): Output -> int { (o: Output) => if o.AlternateLost? then 1 else 0 }
  function TerminationRecords(): Output -> int {
    (o: Output) => if o.Posted? && o.cdr.kind == TerminationTry then 1 else 0
  }

  /** Termination records posted = INVITEs sent - redirected ones - those in progress + alternates
      that could not be sent (each of these leaves two records for one INVITE). */
  ghost predicate Balanced(s: State) {
    Tally(s.log, TerminationRecords())
    == Tally(s.log, TerminationInvites()) - Tally(s.log, RedirectedInvites()) - |s.t.attempts|
      + Tally(s.log, LostAlternates())
  }

  /** What one output adds to INVITEs - redirects + lost alternates - records. */
  function Excess(o: Output): int {
    match o
    case InviteSent(_, _, why) => if why == FirstRoute || why == AlternateRoute then 1 else 0
    case AlternateLost(_) => 1
    case Posted(cdr) => if cdr.kind == TerminationTry then -1 else 0
    case _ => 0
  }

  function ExcessOf(): Output -> int { (o: Output) => Excess(o) }

  lemma {:induction false} TalliesCombine(log: seq<Output>)
    ensures Tally(log, ExcessOf())
            == Tally(log, TerminationInvites()) - Tally(log, RedirectedInvites())
             + Tally(log, LostAlternates()) - Tally(log, TerminationRecords())
  {
    if log != [] { TalliesCombine(log[..|log| - 1]); }
  }

  lemma CardRemove<K, V>(m: map<K, V>, k: K)
    ensures |m - {k}| == |m| - (if k in m then 1 else 0)
  {
    assert (m - {k}).Keys == m.Keys - {k};
  }

  /** How many attempts a reaction ends (-1) or keeps (0). */
  function Change(r: Reaction): int {
    if r.Tried? && (r.v.Lost? || r.v.GiveUp?) then -1 else 0
  }

  lemma ReactionExcess(r: Reaction, status: nat, now: nat)
    ensures Short(ReactionOutputs(r, status, now), ExcessOf()) == Change(r)
  {
  }

  lemma EndedAttempts(t: Tables, orq: Orq, b: Leg, status: nat)
    ensures Ended(t, orq, b, status).t.attempts == t.attempts - {orq}
  {
  }

  lemma MovedAttempts(t: Tables, irq: Irq, orq: Orq, oldB: Leg, newOrq: Orq, newB: Leg, x: Attempt)
    ensures MoveCall(t, irq, orq, oldB, newOrq, newB, x).t.attempts == MapInsert(t.attempts - {orq}, newOrq, x)
  {
  }

  /** The attempts after an answer to an INVITE. */
  ghost predicate AttemptsFollow(t: Tables, r: Reaction, e: Event)
    requires e.InviteResponse?
  {
    var u := AfterReaction(t, r, e).t.attempts;
    if r.Tried? then
      && e.orq in t.attempts
      && if r.v.Redirect? || r.v.Alternate?
         then u == (t.attempts - {e.orq})[e.newOrq := r.v.x] && e.newOrq !in t.attempts
         else u == t.attempts - {e.orq}
    else u == t.attempts
  }

  lemma ReactionAttempts(t: Tables, r: Reaction, e: Event)
    requires e.InviteResponse?
    requires r.Answered? ==> e.orq !in t.attempts
    requires r.Tried? ==> e.orq in t.attempts && (r.v.Redirect? || r.v.Alternate? ==> e.newOrq !in t.attempts)
    ensures AttemptsFollow(t, r, e)
  {
    if r.Tried? {
      if r.v.Redirect? || r.v.Alternate? {
        MovedAttempts(t, r.irq, e.orq, r.b, e.newOrq, e.b, r.v.x);
      } else {
        EndedAttempts(t, e.orq, r.b, e.status);
      }
    } else if r.Answered? {
      EndedAttempts(if e.status == 200 then MarkAnswered(t, r.a, e.timerMade && r.info.timerSecs > 0) else t,
                    e.orq, r.b, e.status);
      assert t.attempts - {e.orq} == t.attempts;
    }
  }

  lemma StepAttempts(s: State, e: Event)
    requires Inv(s.t) && EnvOk(s, e) && e.InviteResponse?
    ensures AttemptsFollow(s.t, React(s.t, s.retries, e), e)
  {
    ReactionFits(s, e);
    assert e.newOrq in s.t.attempts ==> e.newOrq in s.t.stack.orqs;
    ReactionAttempts(s.t, React(s.t, s.retries, e), e);
  }

  lemma ReactionCard(t: Tables, r: Reaction, e: Event)
    requires e.InviteResponse? && AttemptsFollow(t, r, e)
    ensures |AfterReaction(t, r, e).t.attempts| == |t.attempts| + Change(r)
  {
    CardRemove(t.attempts, e.orq);
  }

  /** What the tables say about a call that is canceled. */
  lemma CancelFits(s: State, e: Event)
    requires Inv(s.t) && EnvOk(s, e) && e.Cancel?
    ensures e.irq in s.t.txns.left && e.irq in s.t.stack.irqs
    ensures var leg := ALegOf(s.t, e.irq);
            leg != NULL ==>
              && (leg in s.t.infos <==> s.t.txns.left[e.irq] !in s.t.attempts)
              && (leg in s.t.infos ==>
                    s.t.infos[leg].origination && !s.t.infos[leg].answered && s.t.infos[leg].cdr.Some?)
  {
    var leg := ALegOf(s.t, e.irq);
    assert Linked(s.t, s.t.txns.left[e.irq]);
    if leg in s.t.infos { assert InfoOk(s.t, leg); }
  }

  lemma CancelAttempts(t: Tables, irq: Irq)
    requires irq in t.txns.left
    ensures AfterCancel(t, irq).t.attempts ==
      if ALegOf(t, irq) == NULL then t.attempts else t.attempts - {t.txns.left[irq]}
  {
  }

  lemma CancelOutputs(t: Tables, retries: nat, irq: Irq, now: nat)
    requires irq in t.txns.left
    requires var leg := ALegOf(t, irq);
             leg != NULL ==>
               (leg in t.infos <==> t.txns.left[irq] !in t.attempts) && (leg in t.infos ==> t.infos[leg].cdr.Some?)
    ensures Short(Outputs(t, retries, Cancel(irq, now)), ExcessOf())
            == if ALegOf(t, irq) != NULL && t.txns.left[irq] in t.attempts then -1 else 0
  {
  }

  lemma CancelExcess(s: State, e: Event)
    requires Inv(s.t) && EnvOk(s, e) && e.Cancel?
    ensures Short(Outputs(s.t, s.retries, e), ExcessOf()) == |AfterCancel(s.t, e.irq).t.attempts| - |s.t.attempts|
  {
    CancelFits(s, e);
    CancelAttempts(s.t, e.irq);
    CancelOutputs(s.t, s.retries, e.irq, e.now);
    CardRemove(s.t.attempts, s.t.txns.left[e.irq]);
  }

  lemma NewCallExcess(t: Tables, retries: nat, e: Event)
    requires (e.Originate? || e.Terminate?) && e.orq !in t.attempts
    ensures Short(Outputs(t, retries, e), ExcessOf()) == |TablesAfter(t, retries, e).t.attempts| - |t.attempts|
  {
  }

  lemma DialogExcess(s: State, e: Event)
    requires e.Bye? || e.Forward? || e.Answer? || e.SessionTimer? || e.ResetStats?
    ensures Short(Outputs(s.t, s.retries, e), ExcessOf()) == 0
    ensures TablesAfter(s.t, s.retries, e).t.attempts == s.t.attempts
  {
  }

  lemma StepBalanced(s: State, e: Event)
    requires Balanced(s) && Inv(s.t) && EnvOk(s, e)
    ensures Balanced(Step(s, e))
  {
    TalliesCombine(s.log);
    TalliesCombine(Step(s, e).log);
    TallyStep(s, e, ExcessOf());
    if e.InviteResponse? {
      ReactionExcess(React(s.t, s.retries, e), e.status, e.now);
      StepAttempts(s, e);
      ReactionCard(s.t, React(s.t, s.retries, e), e);
    } else if e.Cancel? {
      CancelExcess(s, e);
    } else if e.Originate? || e.Terminate? {
      NewCallExcess(s.t, s.retries, e);
    } else {
      DialogExcess(s, e);
    }
  }

  lemma {:induction false} RunBalanced(s: State, es: seq<Event>)
    requires Balanced(s) && Inv(s.t) && Legal(s, es)
    ensures Balanced(Exec(s, es))
    decreases |es|
  {
    if es != [] {
      StepKeepsInv(s, es[0]);
      StepBalanced(s, es[0]);
      RunBalanced(Step(s, es[0]), es[1..]);
    }
  }

  // ---- when every re-send is made ----

  /** The stack makes every INVITE that an answer asks for. */
  predicate ResendsMade(es: seq<Event>) {
    forall i :: 0 <= i < |es| && es[i].InviteResponse? ==> es[i].b != NULL && es[i].newOrq != NULL
  }

  lemma StepLosesNone(s: State, e: Event)
    requires e.InviteResponse? ==> e.b != NULL && e.newOrq != NULL
    ensures Tally(Step(s, e).log, LostAlternates()) == Tally(s.log, LostAlternates())
  {
    TallyStep(s, e, LostAlternates());
    if e.InviteResponse? {
      ReactionLosesNone(React(s.t, s.retries, e), e.status, e.now);
    } else if e.Originate? || e.Terminate? {
      NewCallLosesNone(s.t, s.retries, e);
    } else {
      OthersLoseNone(s.t, s.retries, e);
    }
  }

  lemma ReactionLosesNone(r: Reaction, status: nat, now: nat)
    requires r.Tried? ==> !r.v.Lost?
    ensures Short(ReactionOutputs(r, status, now), LostAlternates()) == 0
  {
  }

  lemma NewCallLosesNone(t: Tables, retries: nat, e: Event)
    requires e.Originate? || e.Terminate?
    ensures Short(Outputs(t, retries, e), LostAlternates()) == 0
  {
  }

  lemma OthersLoseNone(t: Tables, retries: nat, e: Event)
    requires !e.InviteResponse? && !e.Originate? && !e.Terminate?
    ensures Short(Outputs(t, retries, e), LostAlternates()) == 0
  {
  }

  /** Then records are exactly INVITEs less redirected ones less those in progress. */
  lemma {:induction false} RunBalancedExactly(s: State, es: seq<Event>)
    requires Balanced(s) && Inv(s.t) && Legal(s, es) && ResendsMade(es) && Tally(s.log, LostAlternates()) == 0
    ensures var u := Exec(s, es);
      Tally(u.log, TerminationRecords())
      == Tally(u.log, TerminationInvites()) - Tally(u.log, RedirectedInvites()) - |u.t.attempts|
    decreases |es|
  {
    if es != [] {
      StepKeepsInv(s, es[0]);
      StepBalanced(s, es[0]);
      StepLosesNone(s, es[0]);
      RunBalancedExactly(Step(s, es[0]), es[1..]);
    }
  }
}
