/** What each callback leads to: what is sent, recorded and replied, and what is left in the tables,
    told from the event and the state before it. */
module CallOutcomes {
  import opened Options
  import opened CallTables
  import opened CallSteps
  import opened CallRuns
  import opened CallAccounting
  import opened CallAlternates

  /** What a callback adds to the log. */
  function Added(s: State, d: State): seq<Output>
    requires |s.log| <= |d.log|
  {
    d.log[|s.log|..]
  }

  lemma AddedIs(s: State, e: Event)
    ensures |s.log| <= |Step(s, e).log| && Added(s, Step(s, e)) == Outputs(s.t, s.retries, e)
  {
  }

  ghost predicate NoReply(o: seq<Output>, irq: Irq) { forall st: nat :: Replied(irq, st) !in o }

  // ---- answers to a termination's INVITE ----

  /** A final answer to the pending INVITE of a termination whose leg is alive. */
  ghost predicate TriedAnswer(s: State, e: Event) {
    && Inv(s.t) && WithinLimit(s) && EnvOk(s, e) && e.InviteResponse? && e.status >= 200
    && e.orq in s.t.attempts && s.t.stack.orqs[e.orq].kind == Invite && s.t.stack.orqs[e.orq].leg != NULL
  }

  function RequestOf(s: State, e: Event): Irq
    requires e.InviteResponse?
  {
    if e.orq in s.t.txns.right then s.t.txns.right[e.orq] else NULL
  }

  /** When an alternate route is tried: the answer is 480 or 503, the request has tried fewer than
      the limit allows, there is another route, and the stack makes its INVITE. */
  ghost predicate TriesAlternate(s: State, e: Event)
    requires e.InviteResponse?
  {
    && (e.status == 480 || e.status == 503) && Alternates(s.log, RequestOf(s, e)) < RetryLimit(s.retries)
    && e.alt.Some? && e.b != NULL && e.newOrq != NULL
  }

  predicate FollowsRedirect(e: Event)
    requires e.InviteResponse?
  {
    300 <= e.status <= 399 && e.b != NULL && e.newOrq != NULL
  }

  /** The record of one attempt: on 200 connected now, else ended now. */
  predicate RecordsTry(c: Cdr, x: Cdr, status: nat, now: nat) {
    && c.kind == TerminationTry && c.uuid == x.uuid && c.status == status && c.start == x.start
    && c.carrier == x.carrier && c.trunk == x.trunk
    && (if status == 200 then c.connect == now && c.end == x.end
        else c.end == now && c.connect == x.connect && c.cause == TerminationCarriers)
  }

  /** The reaction to such an answer, spelled out. */
  lemma TriedReaction(s: State, e: Event)
    requires TriedAnswer(s, e)
    ensures var r, x := React(s.t, s.retries, e), s.t.attempts[e.orq];
      && r.Tried? && r.irq == RequestOf(s, e) && r.b == s.t.stack.orqs[e.orq].leg && r.x == x
      && x.count == Alternates(s.log, r.irq)
      && (r.v.Redirect? <==> FollowsRedirect(e)) && (r.v.Redirect? ==> r.v.x == x.(url := e.url))
      && (r.v.Alternate? <==> TriesAlternate(s, e))
      && (r.v.Alternate? ==>
            r.v.x == Attempt(x.count + 1, e.url, e.alt.value.carrier, e.alt.value.trunk,
                             x.cdr.(carrier := e.alt.value.carrier, trunk := e.alt.value.trunk)))
  {
    ReactionFits(s, e);
  }

  /** The new INVITE has taken over the entries of the old one. */
  ghost predicate Moved(s: State, e: Event, d: State, x: Attempt)
    requires e.InviteResponse?
  {
    && e.newOrq in d.t.attempts && d.t.attempts[e.newOrq] == x
    && e.newOrq in d.t.txns.right && d.t.txns.right[e.newOrq] == RequestOf(s, e)
    && e.newOrq in d.t.stack.orqs && d.t.stack.orqs[e.newOrq] == OutTxn(Invite, e.b)
    && e.orq !in d.t.attempts && e.orq !in d.t.stack.orqs && e.orq !in d.t.txns.right
  }

  lemma MoveTakesOver(s: State, e: Event)
    requires TriedAnswer(s, e)
    ensures var r := React(s.t, s.retries, e);
      r.Tried? && (r.v.Redirect? || r.v.Alternate?) ==> Moved(s, e, Step(s, e), r.v.x)
  {
    ReactionFits(s, e);
    var r := React(s.t, s.retries, e);
    if r.Tried? && (r.v.Redirect? || r.v.Alternate?) {
      AfterMove(s.t, r, e);
      MoveCallEffect(s.t, r.irq, e.orq, r.b, e.newOrq, e.b, r.v.x);
    }
  }

  /** An alternate route is tried if and only if there is cause, room, a route and an INVITE for it;
      then it is that route's trunk, with a record of the failed attempt and nothing passed back. */
  lemma AlternateTried(s: State, e: Event, k: string)
    requires TriedAnswer(s, e)
    ensures var d, irq, x := Step(s, e), RequestOf(s, e), s.t.attempts[e.orq];
      && |s.log| <= |d.log|
      && (InviteSent(irq, k, AlternateRoute) in Added(s, d) <==> TriesAlternate(s, e) && e.alt.value.trunk == k)
      && (TriesAlternate(s, e) ==>
            && NoReply(Added(s, d), irq)
            && (exists c :: Posted(c) in Added(s, d) && RecordsTry(c, x.cdr, e.status, e.now))
            && var r := e.alt.value;
            Moved(s, e, d,
                  Attempt(x.count + 1, e.url, r.carrier, r.trunk, x.cdr.(carrier := r.carrier, trunk := r.trunk))))
  {
    AddedIs(s, e);
    TriedReaction(s, e);
    MoveTakesOver(s, e);
    TriedOutputs(React(s.t, s.retries, e), e.status, e.now, k);
  }

  /** What is sent, recorded and replied after each decision on an attempt. */
  lemma TriedOutputs(r: Reaction, status: nat, now: nat, k: string)
    requires r.Tried?
    ensures var o := ReactionOutputs(r, status, now);
      && (InviteSent(r.irq, k, AlternateRoute) in o <==> r.v.Alternate? && r.v.x.trunk == k)
      && (InviteSent(r.irq, k, Redirected) in o <==> r.v.Redirect? && r.v.x.trunk == k)
      && (r.v.Alternate? || r.v.Redirect? ==> NoReply(o, r.irq))
      && (r.v.Lost? || r.v.GiveUp? ==> Replied(r.irq, status) in o)
      && (!r.v.Redirect? ==> exists c :: Posted(c) in o && RecordsTry(c, r.x.cdr, status, now))
  {
    if !r.v.Redirect? {
      var c := FinalCdr(r.x.cdr, TerminationTry, status, now);
      assert Posted(c) in ReactionOutputs(r, status, now) && RecordsTry(c, r.x.cdr, status, now);
    }
  }

  /** A redirect is followed on the same trunk if and only if its INVITE can be made. */
  lemma RedirectFollowed(s: State, e: Event, k: string)
    requires TriedAnswer(s, e)
    ensures var d, irq, x := Step(s, e), RequestOf(s, e), s.t.attempts[e.orq];
      && |s.log| <= |d.log|
      && (InviteSent(irq, k, Redirected) in Added(s, d) <==> FollowsRedirect(e) && x.trunk == k)
      && (FollowsRedirect(e) ==> NoReply(Added(s, d), irq) && Moved(s, e, d, x.(url := e.url)))
  {
    AddedIs(s, e);
    TriedReaction(s, e);
    MoveTakesOver(s, e);
    TriedOutputs(React(s.t, s.retries, e), e.status, e.now, k);
  }

  /** Anything else is passed back and recorded, and ends the attempt; on 200 the call stays up. */
  lemma AnswerPassedBack(s: State, e: Event)
    requires TriedAnswer(s, e) && !TriesAlternate(s, e) && !FollowsRedirect(e)
    ensures var d, irq, x := Step(s, e), RequestOf(s, e), s.t.attempts[e.orq];
      && |s.log| <= |d.log|
      && Replied(irq, e.status) in Added(s, d)
      && (exists c :: Posted(c) in Added(s, d) && RecordsTry(c, x.cdr, e.status, e.now))
      && e.orq !in d.t.attempts && e.orq !in d.t.stack.orqs && irq !in d.t.stack.irqs
      && (s.t.stack.orqs[e.orq].leg in d.t.stack.legs <==> e.status == 200)
  {
    AddedIs(s, e);
    TriedReaction(s, e);
    var r := React(s.t, s.retries, e);
    TriedOutputs(r, e.status, e.now, "");
    ReactionFits(s, e);
    EndsCall(s.t, r, e);
  }

  /** What the end of an INVITE takes away. */
  lemma EndsCall(t: Tables, r: Reaction, e: Event)
    requires Inv(t) && e.InviteResponse? && (r.Answered? || (r.Tried? && (r.v.Lost? || r.v.GiveUp?)))
    requires e.orq in t.stack.orqs && t.stack.orqs[e.orq] == OutTxn(Invite, r.b) && r.b in t.stack.legs
    requires r.Answered? ==> r.a in t.infos
    ensures var u := AfterReaction(t, r, e).t;
      && e.orq !in u.attempts && e.orq !in u.stack.orqs && t.txns.right[e.orq] !in u.stack.irqs
      && (r.b in u.stack.legs <==> e.status == 200)
  {
    AfterEnd(t, r, e);
    if e.status != 200 {
      ClearTransactionKeepsInv(t, e.orq);
      ClearDialogShape(EraseAttempt(ClearTransaction(t, e.orq), e.orq), r.b);
    }
  }

  // ---- answers to an origination's INVITE, and provisional ones ----

  ghost predicate OriginationAnswer(s: State, e: Event) {
    && Inv(s.t) && EnvOk(s, e) && e.InviteResponse?
    && e.orq !in s.t.attempts && s.t.stack.orqs[e.orq].kind == Invite && s.t.stack.orqs[e.orq].leg != NULL
  }

  predicate RecordsFinal(c: Cdr, x: Cdr, status: nat, now: nat) {
    && c.kind == OriginationFinal && c.uuid == x.uuid && c.status == status && c.start == x.start
    && (if status == 200 then c.connect == now && c.end == x.end
        else c.end == now && c.connect == x.connect && c.cause == TerminationCarriers)
  }

  /** A final answer to an origination is passed back and recorded; on 200 the call is answered, with
      its session timer if one is wanted and made, else its legs and its info are gone. */
  lemma OriginationAnswered(s: State, e: Event)
    requires OriginationAnswer(s, e) && e.status >= 200
    ensures var d, irq := Step(s, e), RequestOf(s, e);
      && irq in s.t.stack.irqs && s.t.stack.irqs[irq].leg in s.t.infos
      && var a, b := s.t.stack.irqs[irq].leg, s.t.stack.orqs[e.orq].leg;
      var f := s.t.infos[a];
      && |s.log| <= |d.log| && f.cdr.Some?
      && (exists c :: Added(s, d) == [Replied(irq, e.status), Posted(c)] &&
                      RecordsFinal(c, f.cdr.value, e.status, e.now))
      && e.orq !in d.t.stack.orqs && irq !in d.t.stack.irqs
      && (b in d.t.stack.legs <==> e.status == 200)
      && (if e.status == 200
          then a in d.t.infos &&
               d.t.infos[a] == f.(answered := true, timer := f.timer || (e.timerMade && f.timerSecs > 0))
          else a !in d.t.infos)
  {
    AddedIs(s, e);
    ReactionFits(s, e);
    assert Linked(s.t, e.orq);
    var r := React(s.t, s.retries, e);
    var c := FinalCdr(r.cdr, OriginationFinal, e.status, e.now);
    assert RecordsFinal(c, r.cdr, e.status, e.now);
    EndsCall(s.t, r, e);
    AfterEnd(s.t, r, e);
    if e.status != 200 {
      ClearTransactionKeepsInv(s.t, e.orq);
      ClearDialogShape(EraseAttempt(ClearTransaction(s.t, e.orq), e.orq), r.b);
    }
  }

  /** A provisional answer is passed back, except 100, and changes nothing. */
  lemma ProvisionalPassedBack(s: State, e: Event)
    requires Inv(s.t) && EnvOk(s, e) && e.InviteResponse? && e.status < 200
    requires s.t.stack.orqs[e.orq].kind == Invite && s.t.stack.orqs[e.orq].leg != NULL
    ensures var d := Step(s, e);
      && |s.log| <= |d.log| && d.t == s.t && d.stats == s.stats
      && Added(s, d) == if e.status == 100 then [] else [Replied(RequestOf(s, e), e.status)]
  {
    AddedIs(s, e);
    ReactionFits(s, e);
    assert Linked(s.t, e.orq);
  }

  // ---- new calls ----

  /** An origination is refused with 486 if there is no server, with 503 if the stack fails, and else
      sent to the server and recorded. */
  lemma Originated(s: State, e: Event)
    requires Inv(s.t) && EnvOk(s, e) && e.Originate?
    ensures var d := Step(s, e); var made := e.serverFound && e.a != NULL && e.b != NULL && e.orq != NULL;
      && |s.log| <= |d.log|
      && (exists c :: Posted(c) in Added(s, d)
                      && RecordsRequest(c, e, if made then 0 else if e.serverFound then 503 else 486))
      && (!made ==> d.t == s.t && Replied(e.irq, if e.serverFound then 503 else 486) in Added(s, d))
      && (made ==>
            && InviteSent(e.irq, "", ToServer) in Added(s, d) && NoReply(Added(s, d), e.irq)
            && e.orq in d.t.txns.right && d.t.txns.right[e.orq] == e.irq && e.orq !in d.t.attempts
            && e.a in d.t.dialogs.left && d.t.dialogs.left[e.a] == e.b
            && e.a in d.t.infos && d.t.infos[e.a].origination && !d.t.infos[e.a].answered
            && d.t.infos[e.a].timerSecs == e.timerSecs && d.t.infos[e.a].cdr.Some?
            && d.t.infos[e.a].cdr.value.uuid == e.uuid && d.t.infos[e.a].cdr.value.start == e.now)
  {
    AddedIs(s, e);
    OriginatedOutputs(s.t, s.retries, e);
    if e.serverFound && e.a != NULL && e.b != NULL && e.orq != NULL {
      NoAttempt(s.t, e.orq);
      AddCallEffect(s.t, e.irq, e.a, e.b, e.orq, None, NewInfo(e.a, e.timerSecs, e.uuid, e.now));
    }
  }

  lemma OriginatedOutputs(t: Tables, retries: nat, e: Event)
    requires e.Originate?
    ensures var o := Outputs(t, retries, e); var made := e.serverFound && e.a != NULL && e.b != NULL && e.orq != NULL;
      && (exists c :: Posted(c) in o && RecordsRequest(c, e, if made then 0 else if e.serverFound then 503 else 486))
      && (!made ==> Replied(e.irq, if e.serverFound then 503 else 486) in o)
      && (made ==> InviteSent(e.irq, "", ToServer) in o && NoReply(o, e.irq))
  {
    var made := e.serverFound && e.a != NULL && e.b != NULL && e.orq != NULL;
    var cdr := NewOriginationCdr(e.uuid, e.now);
    var c := if made then cdr else cdr.(status := if e.serverFound then 503 else 486, cause := SystemError);
    assert Posted(c) in Outputs(t, retries, e);
  }

  predicate RecordsRequest(c: Cdr, e: Event, status: nat)
    requires e.Originate?
  {
    c.kind == OriginationRequest && c.uuid == e.uuid && c.start == e.now && c.status == status
  }

  lemma NoAttempt(t: Tables, orq: Orq)
    requires TxnsPaired(t) && orq !in t.stack.orqs
    ensures orq !in t.attempts
  {
  }

  /** A termination is refused with 480 if there is no route, with 503 if the stack fails, and else
      sent on that route as its first attempt. */
  lemma Terminated(s: State, e: Event)
    requires Inv(s.t) && EnvOk(s, e) && e.Terminate? && !UncheckedNull(e)
    ensures var d := Step(s, e); var made := e.route.Some? && e.b != NULL && e.orq != NULL;
      && |s.log| <= |d.log|
      && (!made ==> d.t == s.t && Replied(e.irq, if e.route.Some? then 503 else 480) in Added(s, d))
      && (made ==>
            && InviteSent(e.irq, e.route.value.trunk, FirstRoute) in Added(s, d) && NoReply(Added(s, d), e.irq)
            && e.orq in d.t.txns.right && d.t.txns.right[e.orq] == e.irq
            && e.a in d.t.dialogs.left && d.t.dialogs.left[e.a] == e.b
            && e.b in d.t.infos && !d.t.infos[e.b].origination
            && e.orq in d.t.attempts
            && var x := d.t.attempts[e.orq];
            && x.count == 0 && x.url == e.url && x.carrier == e.route.value.carrier && x.trunk == e.route.value.trunk
            && x.cdr.uuid == e.uuid && x.cdr.start == e.now && x.cdr.carrier == x.carrier && x.cdr.trunk == x.trunk)
  {
    AddedIs(s, e);
    if e.route.Some? && e.b != NULL && e.orq != NULL {
      AddCallEffect(s.t, e.irq, e.a, e.b, e.orq, Some(NewAttempt(e.route.value, e.uuid, e.url, e.now)),
                    Info(e.b, false, 0, false, false, None));
    }
  }

  // ---- CANCEL, BYE and requests inside a dialog ----

  /** CANCEL ends the call: an origination is recorded as canceled, a termination as answered 487. */
  lemma CanceledCall(s: State, e: Event)
    requires Inv(s.t) && EnvOk(s, e) && e.Cancel? && s.t.stack.irqs[e.irq].leg != NULL
    ensures var d, a := Step(s, e), s.t.stack.irqs[e.irq].leg;
      && |s.log| <= |d.log| && e.irq in s.t.txns.left
      && var orq := s.t.txns.left[e.irq];
      && (exists c :: Added(s, d) == [Posted(c)] && RecordsCancel(s.t, c, a, orq, e.now))
      && e.irq !in d.t.stack.irqs && orq !in d.t.stack.orqs && orq !in d.t.attempts
      && a !in d.t.stack.legs && s.t.stack.orqs[orq].leg !in d.t.stack.legs
  {
    AddedIs(s, e);
    var a, orq := s.t.stack.irqs[e.irq].leg, s.t.txns.left[e.irq];
    assert Linked(s.t, orq);
    if a in s.t.infos { assert InfoOk(s.t, a); }
    CancelIsRecorded(s.t, a, orq, e.now);
    var c := CancelRecord(s.t, a, orq, e.now).value;
    assert Added(s, Step(s, e)) == [Posted(c)];
    CancelClears(s.t, orq, a);
  }

  predicate RecordsCancel(t: Tables, c: Cdr, a: Leg, orq: Orq, now: nat) {
    if a in t.infos
    then t.infos[a].cdr.Some? && c.uuid == t.infos[a].cdr.value.uuid && c.kind == OriginationCancel
         && c.cause == Canceled && c.end == now
    else orq in t.attempts && RecordsTry(c, t.attempts[orq].cdr, 487, now)
  }

  lemma CancelIsRecorded(t: Tables, a: Leg, orq: Orq, now: nat)
    requires if a in t.infos then t.infos[a].cdr.Some? else orq in t.attempts
    ensures CancelRecord(t, a, orq, now).Some? && RecordsCancel(t, CancelRecord(t, a, orq, now).value, a, orq, now)
  {
  }

  lemma CancelClears(t: Tables, orq: Orq, a: Leg)
    requires Inv(t) && orq in t.stack.orqs && a in t.dialogs.left && t.stack.orqs[orq].leg == t.dialogs.left[a]
    ensures var u := ClearDialog(EraseAttempt(ClearTransaction(t, orq), orq), a).t;
      && t.txns.right[orq] !in u.stack.irqs && orq !in u.stack.orqs && orq !in u.attempts
      && a !in u.stack.legs && t.stack.orqs[orq].leg !in u.stack.legs
  {
    ClearTransactionKeepsInv(t, orq);
    ClearDialogShape(EraseAttempt(ClearTransaction(t, orq), orq), a);
  }

  /** The A leg of an origination that `leg` belongs to, if it does. */
  function OriginationOf(t: Tables, leg: Leg): Option<Leg> {
    if leg in t.infos && t.infos[leg].origination then Some(leg)
    else if leg in t.dialogs.right && t.dialogs.right[leg] in t.infos && t.infos[t.dialogs.right[leg]].origination
    then Some(t.dialogs.right[leg])
    else None
  }

  /** BYE is answered 200 and ends the call. An origination is recorded as cleared now, the calling
      party releasing it if and only if the BYE came on its A leg. */
  lemma HungUp(s: State, e: Event)
    requires Inv(s.t) && EnvOk(s, e) && e.Bye?
    ensures var d := Step(s, e);
      && |s.log| <= |d.log| && Replied(e.irq, 200) in Added(s, d)
      && e.leg !in d.t.stack.legs && (forall l :: Peer(s.t.dialogs, e.leg) == Some(l) ==> l !in d.t.stack.legs)
      && match OriginationOf(s.t, e.leg)
         case None => forall c :: Posted(c) !in Added(s, d)
         case Some(a) =>
           exists c :: Posted(c) in Added(s, d) && ClearsCall(c, s.t.infos[a], e.now, e.leg == a)
  {
    AddedIs(s, e);
    ByeRecorded(s.t, e.leg, e.now);
    ByeOutputs(s.t, s.retries, e);
    ByeClears(s.t, s.retries, e);
    match OriginationOf(s.t, e.leg)
    case None =>
    case Some(a) =>
      var c := ByeRecord(s.t, e.leg, e.now).value;
      assert Posted(c) in Outputs(s.t, s.retries, e);
  }

  /** The record that a BYE leaves, and when there is none. */
  lemma ByeRecorded(t: Tables, leg: Leg, now: nat)
    requires Inv(t) && leg in t.stack.legs
    ensures Peer(t.dialogs, leg).Some?
    ensures var r := ByeRecord(t, leg, now);
      match OriginationOf(t, leg)
      case None => r.None?
      case Some(a) => r.Some? && ClearsCall(r.value, t.infos[a], now, leg == a)
  {
    PeerIsInvolution(t, leg);
    var other := Peer(t.dialogs, leg).value;
    if leg in t.infos { assert InfoOk(t, leg); }
    if other in t.infos { assert InfoOk(t, other); }
  }

  lemma ByeOutputs(t: Tables, retries: nat, e: Event)
    requires e.Bye? && Peer(t.dialogs, e.leg).Some?
    ensures var o, r := Outputs(t, retries, e), ByeRecord(t, e.leg, e.now);
      && Replied(e.irq, 200) in o
      && forall c :: Posted(c) in o <==> r == Some(c)
  {
    var r := ByeRecord(t, e.leg, e.now);
    assert Outputs(t, retries, e) == [Received(e.irq)] + PostedOrNone(r) + [Replied(e.irq, 200)];
    if r.Some? { assert Posted(r.value) in PostedOrNone(r); }
  }

  lemma ByeClears(t: Tables, retries: nat, e: Event)
    requires Inv(t) && e.Bye? && e.leg in t.stack.legs
    ensures var u := TablesAfter(t, retries, e).t;
      e.leg !in u.stack.legs && forall l :: Peer(t.dialogs, e.leg) == Some(l) ==> l !in u.stack.legs
  {
    PeerIsInvolution(t, e.leg);
    ClearDialogShape(t, e.leg);
  }

  predicate ClearsCall(c: Cdr, f: Info, now: nat, byCaller: bool) {
    && f.cdr.Some? && c.kind == CallCleared && c.uuid == f.cdr.value.uuid && c.end == now
    && (c.cause == CallingPartyRelease <==> byCaller) && (c.cause == CalledPartyRelease <==> !byCaller)
  }

  /** A request inside a dialog goes to the other leg, and its answer back on its own transaction. */
  lemma Forwarded(s: State, e: Event)
    requires Inv(s.t) && EnvOk(s, e) && e.Forward? && e.orq != NULL
    ensures var d := Step(s, e);
      && |s.log| <= |d.log| && Added(s, d) == [Received(e.irq)]
      && e.orq in d.t.txns.right && d.t.txns.right[e.orq] == e.irq
      && e.orq in d.t.stack.orqs && d.t.stack.orqs[e.orq].kind == InDialog
      && Some(d.t.stack.orqs[e.orq].leg) == Peer(s.t.dialogs, e.leg)
      && d.t.dialogs == s.t.dialogs && d.t.infos == s.t.infos && d.t.attempts == s.t.attempts
  {
    AddedIs(s, e);
    PeerIsInvolution(s.t, e.leg);
  }

  lemma ForwardAnswered(s: State, e: Event)
    requires Inv(s.t) && EnvOk(s, e) && e.Answer?
    ensures var d := Step(s, e);
      && |s.log| <= |d.log| && Added(s, d) == [Replied(s.t.txns.right[e.orq], e.status)]
      && (e.orq in d.t.stack.orqs <==> e.status < 200)
      && d.t.dialogs == s.t.dialogs && d.t.infos == s.t.infos && d.t.attempts == s.t.attempts
  {
    AddedIs(s, e);
    assert Linked(s.t, e.orq);
  }

  /** An expired session timer takes the call down, with no reply and no record. */
  lemma TimedOut(s: State, e: Event)
    requires Inv(s.t) && EnvOk(s, e) && e.SessionTimer?
    ensures var d := Step(s, e);
      && |s.log| <= |d.log| && Added(s, d) == []
      && (if e.leg in s.t.infos then e.leg !in d.t.stack.legs && e.leg !in d.t.infos else d.t == s.t)
  {
    AddedIs(s, e);
    if e.leg in s.t.infos {
      assert InfoOk(s.t, e.leg);
      PeerIsInvolution(s.t, e.leg);
      ClearDialogShape(s.t, e.leg);
    }
  }

  // ---- attempts and their records ----

  /** Every attempt's record names the carrier and trunk it is on. */
  ghost predicate RecordsName(m: map<Orq, Attempt>) {
    forall o :: o in m ==> m[o].cdr.carrier == m[o].carrier && m[o].cdr.trunk == m[o].trunk
  }

  lemma StepRecordsName(s: State, e: Event)
    requires Inv(s.t) && EnvOk(s, e) && RecordsName(s.t.attempts)
    ensures RecordsName(Step(s, e).t.attempts)
  {
    if e.InviteResponse? {
      ReactionFits(s, e);
      StepAttempts(s, e);
      ReactionRecordsName(s.t, s.retries, e);
    } else {
      OthersRecordName(s.t, s.retries, e);
    }
  }

  lemma ReactionRecordsName(t: Tables, retries: nat, e: Event)
    requires RecordsName(t.attempts) && e.InviteResponse? && AttemptsFollow(t, React(t, retries, e), e)
    requires var r := React(t, retries, e); r.Tried? ==> e.orq in t.attempts && r.x == t.attempts[e.orq]
    ensures RecordsName(AfterReaction(t, React(t, retries, e), e).t.attempts)
  {
  }

  lemma OthersRecordName(t: Tables, retries: nat, e: Event)
    requires RecordsName(t.attempts) && !e.InviteResponse?
    ensures RecordsName(TablesAfter(t, retries, e).t.attempts)
  {
  }

  /** In every run, so that each termination record names the route that was tried. */
  lemma {:induction false} RunRecordsName(s: State, es: seq<Event>)
    requires Inv(s.t) && RecordsName(s.t.attempts) && Legal(s, es)
    ensures RecordsName(Exec(s, es).t.attempts)
    decreases |es|
  {
    if es != [] {
      StepKeepsInv(s, es[0]);
      StepRecordsName(s, es[0]);
      RunRecordsName(Step(s, es[0]), es[1..]);
    }
  }
}
