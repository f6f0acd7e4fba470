/** The call detail records of whole runs: which histories a session can have, and what its rows say. */
module CallRecords {
  import opened Options
  import opened CallTables
  import opened CallSteps
  import opened CallRuns
  import opened CallAccounting
  import opened CdrRows
  import opened CdrBook

  function RecordOf(o: Output): seq<Cdr> { if o.Posted? then [o.cdr] else [] }

  /** The records posted, oldest first. */
  function Records(log: seq<Output>): seq<Cdr> {
    if log == [] then [] else Records(log[..|log| - 1]) + RecordOf(log[|log| - 1])
  }

  lemma {:induction false} RecordsAppend(log: seq<Output>, more: seq<Output>)
    ensures Records(log + more) == Records(log) + Records(more)
  {
    if more == [] {
      assert log + more == log;
    } else {
      assert (log + more)[..|log + more| - 1] == log + more[..|more| - 1];
      RecordsAppend(log, more[..|more| - 1]);
    }
  }

  /** The records among the few outputs of one step. */
  function Brief(o: seq<Output>): seq<Cdr> {
    if |o| == 0 then []
    else if |o| == 1 then RecordOf(o[0])
    else if |o| == 2 then RecordOf(o[0]) + RecordOf(o[1])
    else if |o| == 3 then RecordOf(o[0]) + RecordOf(o[1]) + RecordOf(o[2])
    else if |o| == 4 then RecordOf(o[0]) + RecordOf(o[1]) + RecordOf(o[2]) + RecordOf(o[3])
    else Records(o)
  }

  lemma RecordsOfFew(o: seq<Output>)
    ensures Records(o) == Brief(o)
  {
    if |o| == 1 {
      RecordsSnoc([], o[0]);
      assert [] + [o[0]] == o;
    } else if |o| == 2 {
      RecordsOfTwo(o[0], o[1]);
      assert [o[0], o[1]] == o;
    } else if |o| == 3 {
      RecordsOfThree(o[0], o[1], o[2]);
      assert [o[0], o[1], o[2]] == o;
    } else if |o| == 4 {
      RecordsOfThree(o[0], o[1], o[2]);
      RecordsSnoc([o[0], o[1], o[2]], o[3]);
      assert [o[0], o[1], o[2]] + [o[3]] == o;
    }
  }

  lemma RecordsOfThree(a: Output, b: Output, c: Output)
    ensures Records([a, b, c]) == RecordOf(a) + RecordOf(b) + RecordOf(c)
  {
    RecordsOfTwo(a, b);
    RecordsSnoc([a, b], c);
    assert [a, b] + [c] == [a, b, c];
  }

  lemma RecordsSnoc(log: seq<Output>, o: Output)
    ensures Records(log + [o]) == Records(log) + RecordOf(o)
  {
    assert (log + [o])[..|log|] == log;
  }

  lemma RecordsOfTwo(a: Output, b: Output)
    ensures Records([a, b]) == RecordOf(a) + RecordOf(b)
  {
    RecordsSnoc([], a);
    RecordsSnoc([a], b);
    assert [] + [a] == [a] && [a] + [b] == [a, b];
  }

  function ReactionRecords(r: Reaction, status: nat, now: nat): seq<Cdr> {
    match r
    case Answered(_, _, _, _, cdr) => [FinalCdr(cdr, OriginationFinal, status, now)]
    case Tried(_, _, x, v) =>
      var c := FinalCdr(x.cdr, TerminationTry, status, now);
      (match v
       case Redirect(_) => []
       case Alternate(_) => [c]
       case Lost(x1) => [c, FinalCdr(x1.cdr, TerminationTry, status, now)]
       case GiveUp => [c])
    case _ => []
  }

  lemma ReactionPosts(r: Reaction, status: nat, now: nat)
    ensures Records(ReactionOutputs(r, status, now)) == ReactionRecords(r, status, now)
  {
    RecordsOfFew(ReactionOutputs(r, status, now));
  }

  /** The records one callback posts. */
  function StepRecords(t: Tables, retries: nat, e: Event): seq<Cdr> {
    match e
    case Originate(_, serverFound, a, b, orq, _, uuid, now) =>
      if !serverFound then [NewOriginationCdr(uuid, now).(status := 486, cause := SystemError)]
      else if a == NULL || b == NULL || orq == NULL then
        [NewOriginationCdr(uuid, now).(status := 503, cause := SystemError)]
      else [NewOriginationCdr(uuid, now)]
    case InviteResponse(_, status, _, _, _, _, _, now) => ReactionRecords(React(t, retries, e), status, now)
    case Cancel(irq, now) =>
      if irq in t.txns.left && ALegOf(t, irq) != NULL then
        var c := CancelRecord(t, ALegOf(t, irq), t.txns.left[irq], now);
        if c.Some? then [c.value] else []
      else []
    case Bye(leg, _, now) =>
      if Peer(t.dialogs, leg).Some? && ByeRecord(t, leg, now).Some? then [ByeRecord(t, leg, now).value] else []
    case _ => []
  }

  lemma NewCallPosts(t: Tables, retries: nat, e: Event)
    requires e.Originate? || e.Terminate?
    ensures Records(Outputs(t, retries, e)) == StepRecords(t, retries, e)
  {
    RecordsOfFew(Outputs(t, retries, e));
  }

  lemma OtherPosts(t: Tables, retries: nat, e: Event)
    requires !e.Originate? && !e.Terminate? && !e.InviteResponse?
    ensures Records(Outputs(t, retries, e)) == StepRecords(t, retries, e)
  {
    RecordsOfFew(Outputs(t, retries, e));
  }

  lemma StepPosts(s: State, e: Event)
    ensures Records(Step(s, e).log) == Records(s.log) + StepRecords(s.t, s.retries, e)
  {
    RecordsAppend(s.log, Outputs(s.t, s.retries, e));
    if e.InviteResponse? {
      ReactionPosts(React(s.t, s.retries, e), e.status, e.now);
    } else if e.Originate? || e.Terminate? {
      NewCallPosts(s.t, s.retries, e);
    } else {
      OtherPosts(s.t, s.retries, e);
    }
  }

  // ---- the infos after a step ----

  lemma ClearDialogInfos(t: Tables, leg: Leg)
    ensures var less := ClearDialog(t, leg).t.infos;
            Fewer(less, t.infos) && leg !in less && (Peer(t.dialogs, leg).Some? ==> Peer(t.dialogs, leg).value !in less)
  {
  }

  lemma EndedInfos(t: Tables, orq: Orq, b: Leg, status: nat)
    ensures var less := Ended(t, orq, b, status).t.infos;
            Fewer(less, t.infos) && (status == 200 ==> less == t.infos)
            && (status != 200 && Peer(t.dialogs, b).Some? ==> Peer(t.dialogs, b).value !in less)
  {
    ClearDialogInfos(EraseAttempt(ClearTransaction(t, orq), orq), b);
  }

  lemma MoveCallInfos(t: Tables, irq: Irq, orq: Orq, oldB: Leg, newOrq: Orq, newB: Leg, x: Attempt)
    requires oldB in t.infos ==> !t.infos[oldB].origination
    ensures Fewer(MoveCall(t, irq, orq, oldB, newOrq, newB, x).t.infos, t.infos)
  {
  }

  // ---- the books over a step ----

  ghost predicate Booked(s: State) {
    && 1 <= s.clock
    && Book(Records(s.log), s.clock, s.uuids, s.t.infos)
    && (forall o :: o in s.t.attempts ==> FreshTry(s.t.attempts[o].cdr, s.clock))
  }

  lemma FinalTryIsOk(c: Cdr, clock: nat, status: nat, now: nat)
    requires FreshTry(c, clock) && clock <= now && status != 0
    ensures TryOk(TryRowOf(FinalCdr(c, TerminationTry, status, now)), now)
  {
  }

  lemma OriginateBooked(s: State, e: Event)
    requires Booked(s) && Inv(s.t) && EnvOk(s, e) && e.Originate?
    ensures Book(Records(s.log) + StepRecords(s.t, s.retries, e), e.now, s.uuids + {e.uuid},
      TablesAfter(s.t, s.retries, e).t.infos)
  {
    var rs := Records(s.log);
    LaterKeepsBook(rs, s.clock, s.uuids, s.t.infos, e.now);
    var c := NewOriginationCdr(e.uuid, e.now);
    if e.serverFound && e.a != NULL && e.b != NULL && e.orq != NULL {
      DeadLegHasNoInfo(s.t, e.a);
      OpenedKeepsBook(rs, e.now, s.uuids, s.t.infos, c, e.a, NewInfo(e.a, e.timerSecs, e.uuid, e.now));
    } else {
      RequestKeepsBook(rs, e.now, s.uuids, s.t.infos,
          c.(status := if e.serverFound then 503 else 486, cause := SystemError));
    }
  }

  lemma AnsweredBooked(s: State, e: Event, r: Reaction)
    requires Booked(s) && e.InviteResponse? && s.clock <= e.now && r.Answered?
    requires r.a in s.t.infos && r.info == s.t.infos[r.a] && r.info.origination && !r.info.answered
      && r.info.cdr == Some(r.cdr)
    requires Peer(s.t.dialogs, r.b) == Some(r.a) && e.status >= 200
    ensures Book(Records(s.log) + ReactionRecords(r, e.status, e.now), e.now, s.uuids, AfterReaction(s.t, r, e).t.infos)
  {
    var rs := Records(s.log);
    LaterKeepsBook(rs, s.clock, s.uuids, s.t.infos, e.now);
    var c := FinalCdr(r.cdr, OriginationFinal, e.status, e.now);
    if e.status == 200 {
      var timer := e.timerMade && r.info.timerSecs > 0;
      EndedInfos(MarkAnswered(s.t, r.a, timer), e.orq, r.b, e.status);
      AnswerKeepsBook(rs, e.now, s.uuids, s.t.infos, r.a, c, r.info.(answered := true, timer := r.info.timer || timer));
    } else {
      EndedInfos(s.t, e.orq, r.b, e.status);
      EndKeepsBook(rs, e.now, s.uuids, s.t.infos, r.a, c, AfterReaction(s.t, r, e).t.infos);
    }
  }

  lemma TriedBooked(s: State, e: Event, r: Reaction)
    requires Booked(s) && e.InviteResponse? && s.clock <= e.now && r.Tried? && e.status >= 200
    requires FreshTry(r.x.cdr, s.clock) && (r.v.Lost? ==> FreshTry(r.v.x.cdr, s.clock))
    requires r.b in s.t.infos ==> !s.t.infos[r.b].origination
    ensures Book(Records(s.log) + ReactionRecords(r, e.status, e.now), e.now, s.uuids, AfterReaction(s.t, r, e).t.infos)
  {
    var rs := Records(s.log);
    LaterKeepsBook(rs, s.clock, s.uuids, s.t.infos, e.now);
    var less := AfterReaction(s.t, r, e).t.infos;
    if r.v.Redirect? || r.v.Alternate? {
      MoveCallInfos(s.t, r.irq, e.orq, r.b, e.newOrq, e.b, r.v.x);
    } else {
      EndedInfos(s.t, e.orq, r.b, e.status);
    }
    FewerKeepsBook(rs, e.now, s.uuids, s.t.infos, less);
    TriedRecordsBooked(rs, s.clock, s.uuids, less, r, e.status, e.now);
  }

  lemma TriedRecordsBooked(rs: seq<Cdr>, clock: nat, uuids: set<string>, infos: map<Leg, Info>,
                           r: Reaction, status: nat, now: nat)
    requires Book(rs, now, uuids, infos) && clock <= now && r.Tried? && status >= 200
    requires FreshTry(r.x.cdr, clock) && (r.v.Lost? ==> FreshTry(r.v.x.cdr, clock))
    ensures Book(rs + ReactionRecords(r, status, now), now, uuids, infos)
  {
    var c := FinalCdr(r.x.cdr, TerminationTry, status, now);
    FinalTryIsOk(r.x.cdr, clock, status, now);
    TryKeepsBook(rs, now, uuids, infos, c);
    if r.v.Lost? {
      var c1 := FinalCdr(r.v.x.cdr, TerminationTry, status, now);
      FinalTryIsOk(r.v.x.cdr, clock, status, now);
      TryKeepsBook(rs + [c], now, uuids, infos, c1);
      assert rs + [c] + [c1] == rs + [c, c1];
    } else if r.v.Redirect? {
      assert rs + [] == rs;
    }
  }

  /** How the legs of an answered INVITE sit in the tables. */
  lemma ReactionLegs(s: State, e: Event)
    requires Inv(s.t) && EnvOk(s, e) && e.InviteResponse?
    ensures var r := React(s.t, s.retries, e);
            && (r.Answered? ==> Peer(s.t.dialogs, r.b) == Some(r.a))
            && (r.Tried? && r.b in s.t.infos ==> !s.t.infos[r.b].origination)
  {
    ReactionFits(s, e);
    var r := React(s.t, s.retries, e);
    assert Linked(s.t, e.orq);
    if r.Tried? && r.b in s.t.infos { assert InfoOk(s.t, r.b); }
  }

  lemma InviteResponseBooked(s: State, e: Event)
    requires Booked(s) && Inv(s.t) && EnvOk(s, e) && e.InviteResponse?
    ensures Book(Records(s.log) + StepRecords(s.t, s.retries, e), e.now, s.uuids,
      AfterReaction(s.t, React(s.t, s.retries, e), e).t.infos)
  {
    var r := React(s.t, s.retries, e);
    ReactionFits(s, e);
    ReactionLegs(s, e);
    ReactStaysFresh(s.t, s.retries, e, s.clock);
    if r.Answered? {
      AnsweredBooked(s, e, r);
    } else if r.Tried? {
      TriedBooked(s, e, r);
    } else {
      LaterKeepsBook(Records(s.log), s.clock, s.uuids, s.t.infos, e.now);
      assert Records(s.log) + [] == Records(s.log);
    }
  }

  lemma CanceledOriginationBooked(s: State, a: Leg, now: nat, less: map<Leg, Info>)
    requires Booked(s) && s.clock <= now && a in s.t.infos && Fewer(less, s.t.infos) && a !in less
    requires s.t.infos[a].origination && !s.t.infos[a].answered && s.t.infos[a].cdr.Some?
    ensures Book(Records(s.log) + [CancelCdr(s.t.infos[a].cdr.value, now)], now, s.uuids, less)
  {
    LaterKeepsBook(Records(s.log), s.clock, s.uuids, s.t.infos, now);
    EndKeepsBook(Records(s.log), now, s.uuids, s.t.infos, a, CancelCdr(s.t.infos[a].cdr.value, now), less);
  }

  lemma CanceledTerminationBooked(s: State, orq: Orq, now: nat, less: map<Leg, Info>)
    requires Booked(s) && s.clock <= now && orq in s.t.attempts && Fewer(less, s.t.infos)
    ensures Book(Records(s.log) + [FinalCdr(s.t.attempts[orq].cdr, TerminationTry, 487, now)], now, s.uuids, less)
  {
    LaterKeepsBook(Records(s.log), s.clock, s.uuids, s.t.infos, now);
    FewerKeepsBook(Records(s.log), now, s.uuids, s.t.infos, less);
    FinalTryIsOk(s.t.attempts[orq].cdr, s.clock, 487, now);
    TryKeepsBook(Records(s.log), now, s.uuids, less, FinalCdr(s.t.attempts[orq].cdr, TerminationTry, 487, now));
  }

  lemma CancelInfos(t: Tables, irq: Irq)
    requires irq in t.txns.left && ALegOf(t, irq) != NULL
    ensures Fewer(AfterCancel(t, irq).t.infos, t.infos) && ALegOf(t, irq) !in AfterCancel(t, irq).t.infos
  {
    ClearDialogInfos(EraseAttempt(ClearTransaction(t, t.txns.left[irq]), t.txns.left[irq]), ALegOf(t, irq));
  }

  lemma CancelBooked(s: State, e: Event)
    requires Booked(s) && Inv(s.t) && EnvOk(s, e) && e.Cancel?
    ensures Book(Records(s.log) + StepRecords(s.t, s.retries, e), e.now, s.uuids, AfterCancel(s.t, e.irq).t.infos)
  {
    CancelFits(s, e);
    if ALegOf(s.t, e.irq) == NULL {
      LaterKeepsBook(Records(s.log), s.clock, s.uuids, s.t.infos, e.now);
      assert Records(s.log) + [] == Records(s.log);
    } else {
      CancelInfos(s.t, e.irq);
      LegCancelBooked(s, ALegOf(s.t, e.irq), s.t.txns.left[e.irq], e.now, AfterCancel(s.t, e.irq).t.infos);
    }
  }

  lemma LegCancelBooked(s: State, a: Leg, orq: Orq, now: nat, less: map<Leg, Info>)
    requires Booked(s) && s.clock <= now && Fewer(less, s.t.infos) && a !in less
    requires a in s.t.infos <==> orq !in s.t.attempts
    requires a in s.t.infos ==> s.t.infos[a].origination && !s.t.infos[a].answered && s.t.infos[a].cdr.Some?
    ensures var c := CancelRecord(s.t, a, orq, now); c.Some? && Book(Records(s.log) + [c.value], now, s.uuids, less)
  {
    if a in s.t.infos {
      CanceledOriginationBooked(s, a, now, less);
    } else {
      CanceledTerminationBooked(s, orq, now, less);
    }
  }

  lemma ByeBooked(s: State, e: Event)
    requires Booked(s) && e.Bye? && Peer(s.t.dialogs, e.leg).Some? && s.clock <= e.now
    ensures Book(Records(s.log) + StepRecords(s.t, s.retries, e), e.now, s.uuids, ClearDialog(s.t, e.leg).t.infos)
  {
    var rs, other := Records(s.log), Peer(s.t.dialogs, e.leg).value;
    var r := ByeRecord(s.t, e.leg, e.now);
    LaterKeepsBook(rs, s.clock, s.uuids, s.t.infos, e.now);
    ClearDialogInfos(s.t, e.leg);
    var less := ClearDialog(s.t, e.leg).t.infos;
    if r.None? {
      FewerKeepsBook(rs, e.now, s.uuids, s.t.infos, less);
      assert rs + [] == rs;
    } else if e.leg in s.t.infos && s.t.infos[e.leg].origination && s.t.infos[e.leg].cdr.Some? {
      EndKeepsBook(rs, e.now, s.uuids, s.t.infos, e.leg, r.value, less);
    } else {
      EndKeepsBook(rs, e.now, s.uuids, s.t.infos, other, r.value, less);
    }
  }

  lemma OtherInfos(t: Tables, retries: nat, e: Event)
    requires e.Terminate? || e.Forward? || e.Answer? || e.SessionTimer? || e.ResetStats?
    requires e.Terminate? ==> e.b !in t.infos
    ensures Fewer(TablesAfter(t, retries, e).t.infos, t.infos)
    ensures StepRecords(t, retries, e) == []
  {
    if e.SessionTimer? { ClearDialogInfos(t, e.leg); }
  }

  lemma OtherBooked(s: State, e: Event)
    requires Booked(s) && Inv(s.t) && EnvOk(s, e)
      && (e.Terminate? || e.Forward? || e.Answer? || e.SessionTimer? || e.ResetStats?)
    ensures Book(Records(s.log), ClockAfter(s.clock, e), s.uuids, TablesAfter(s.t, s.retries, e).t.infos)
    ensures StepRecords(s.t, s.retries, e) == []
  {
    if e.Terminate? {
      LaterKeepsBook(Records(s.log), s.clock, s.uuids, s.t.infos, e.now);
      if e.b != NULL { DeadLegHasNoInfo(s.t, e.b); } else { NullHasNoInfo(s.t); }
    }
    OtherInfos(s.t, s.retries, e);
    FewerKeepsBook(Records(s.log), ClockAfter(s.clock, e), s.uuids, s.t.infos, TablesAfter(s.t, s.retries, e).t.infos);
  }

  lemma NullHasNoInfo(t: Tables)
    requires Inv(t)
    ensures NULL !in t.infos
  {
    DeadLegHasNoInfo(t, NULL);
  }

  /** Attempts in progress keep a record that only the last answer will fill in. */
  lemma AttemptsStayFresh(s: State, e: Event)
    requires Booked(s) && Inv(s.t) && EnvOk(s, e)
    ensures forall o :: o in Step(s, e).t.attempts ==> FreshTry(Step(s, e).t.attempts[o].cdr, ClockAfter(s.clock, e))
  {
    if e.InviteResponse? {
      ReactionFits(s, e);
      StepAttempts(s, e);
      ReactStaysFresh(s.t, s.retries, e, s.clock);
    } else if e.Cancel? {
      CancelFits(s, e);
      CancelAttempts(s.t, e.irq);
    } else {
      OtherAttemptsFresh(s.t, s.retries, e, s.clock);
    }
  }

  lemma ReactStaysFresh(t: Tables, retries: nat, e: Event, clock: nat)
    requires e.InviteResponse? && (forall o :: o in t.attempts ==> FreshTry(t.attempts[o].cdr, clock))
    ensures var r := React(t, retries, e);
      r.Tried? ==> FreshTry(r.x.cdr, clock) && (!r.v.GiveUp? ==> FreshTry(r.v.x.cdr, clock))
  {
  }

  lemma OtherAttemptsFresh(t: Tables, retries: nat, e: Event, clock: nat)
    requires !e.InviteResponse? && !e.Cancel? && 1 <= clock <= ClockAfter(clock, e)
    requires forall o :: o in t.attempts ==> FreshTry(t.attempts[o].cdr, clock)
    ensures forall o :: o in TablesAfter(t, retries, e).t.attempts ==>
              FreshTry(TablesAfter(t, retries, e).t.attempts[o].cdr, ClockAfter(clock, e))
  {
  }

  lemma StepBooked(s: State, e: Event)
    requires Booked(s) && Inv(s.t) && EnvOk(s, e)
    ensures Booked(Step(s, e))
  {
    StepPosts(s, e);
    AttemptsStayFresh(s, e);
    if e.Originate? {
      OriginateBooked(s, e);
    } else if e.InviteResponse? {
      InviteResponseBooked(s, e);
    } else if e.Cancel? {
      CancelBooked(s, e);
    } else if e.Bye? {
      PeerIsInvolution(s.t, e.leg);
      ByeBooked(s, e);
    } else {
      OtherBooked(s, e);
      assert Records(s.log) + [] == Records(s.log);
    }
  }

  lemma InitBooked(retries: nat)
    ensures Booked(Init(retries))
  {
  }

  /** Over every run, every session's records form a legal history, and replaying all records
      leaves only rows that are connected exactly when answered with 200, with
      start <= connect <= end. */
  lemma {:induction false} RunBooked(s: State, es: seq<Event>)
    requires Booked(s) && Inv(s.t) && Legal(s, es)
    ensures Booked(Exec(s, es))
    ensures RowsOk(Replay(Records(Exec(s, es).log)), Exec(s, es).clock)
    ensures forall u: string :: LegalHistory(History(Records(Exec(s, es).log), u))
    decreases |es|
  {
    if es != [] {
      StepKeepsInv(s, es[0]);
      StepBooked(s, es[0]);
      RunBooked(Step(s, es[0]), es[1..]);
    }
  }

  // ---- hanging up before the answer ----

  /** No session was cleared right after its request. */
  ghost predicate Uncut(rs: seq<Cdr>) {
    forall u: string :: |History(rs, u)| >= 2 ==> History(rs, u)[1].kind != CallCleared
  }

  /** A BYE for an origination that has not been answered with 200. */
  predicate UnansweredBye(t: Tables, e: Event) {
    && e.Bye?
    && (|| (e.leg in t.infos && t.infos[e.leg].origination && !t.infos[e.leg].answered)
        || (Peer(t.dialogs, e.leg).Some? && Peer(t.dialogs, e.leg).value in t.infos
            && t.infos[Peer(t.dialogs, e.leg).value].origination && !t.infos[Peer(t.dialogs, e.leg).value].answered))
  }

  lemma PostUncut(rs: seq<Cdr>, c: Cdr)
    requires Uncut(rs)
    ensures c.kind != CallCleared || |History(rs, c.uuid)| != 1 ==> Uncut(rs + [c])
    ensures c.kind == CallCleared && |History(rs, c.uuid)| == 1 ==> !Uncut(rs + [c])
  {
    forall u: string
      ensures History(rs + [c], u) ==
        if c.uuid == u && c.kind != TerminationTry then History(rs, u) + [c] else History(rs, u)
    {
      HistorySnoc(rs, c, u);
    }
    if c.kind == CallCleared && |History(rs, c.uuid)| == 1 {
      assert History(rs + [c], c.uuid)[1] == c;
    }
  }

  lemma OnlyByeClears(t: Tables, retries: nat, e: Event)
    requires !e.Bye? && (forall a :: a in t.infos && t.infos[a].cdr.Some? ==> t.infos[a].cdr.value.kind != CallCleared)
    ensures |StepRecords(t, retries, e)| <= 2
    ensures forall c :: c in StepRecords(t, retries, e) ==> c.kind != CallCleared
  {
  }

  lemma ByeRecordHistory(s: State, e: Event)
    requires Booked(s) && Inv(s.t) && EnvOk(s, e) && e.Bye?
    ensures var rs := StepRecords(s.t, s.retries, e);
            && |rs| <= 1 && (|rs| == 0 ==> !UnansweredBye(s.t, e))
            && (|rs| == 1 ==>
                  rs[0].kind == CallCleared && (UnansweredBye(s.t, e) <==> |History(Records(s.log), rs[0].uuid)| == 1))
  {
    PeerIsInvolution(s.t, e.leg);
    var other := Peer(s.t.dialogs, e.leg).value;
    if e.leg in s.t.infos { assert InfoOk(s.t, e.leg); }
    if other in s.t.infos { assert InfoOk(s.t, other); }
  }

  lemma PostFewUncut(rs: seq<Cdr>, more: seq<Cdr>)
    requires Uncut(rs) && |more| <= 2 && (forall c :: c in more ==> c.kind != CallCleared)
    ensures Uncut(rs + more)
  {
    if |more| == 0 {
      assert rs + more == rs;
    } else {
      PostUncut(rs, more[0]);
      if |more| == 1 {
        assert more == [more[0]];
      } else {
        assert rs + more == rs + [more[0]] + [more[1]];
        PostUncut(rs + [more[0]], more[1]);
      }
    }
  }

  lemma ByeUncut(s: State, e: Event)
    requires Booked(s) && Inv(s.t) && EnvOk(s, e) && e.Bye? && Uncut(Records(s.log))
    ensures Uncut(Records(s.log) + StepRecords(s.t, s.retries, e)) <==> !UnansweredBye(s.t, e)
  {
    var rs, more := Records(s.log), StepRecords(s.t, s.retries, e);
    ByeRecordHistory(s, e);
    if |more| == 0 {
      assert rs + more == rs;
    } else {
      assert more == [more[0]];
      PostUncut(rs, more[0]);
    }
  }

  lemma OpenRecordsAreRequests(s: State)
    requires Booked(s) && InfosMatch(s.t)
    ensures forall a :: a in s.t.infos && s.t.infos[a].cdr.Some? ==> s.t.infos[a].cdr.value.kind != CallCleared
  {
    forall a | a in s.t.infos && s.t.infos[a].cdr.Some?
      ensures s.t.infos[a].cdr.value.kind != CallCleared
    {
      assert InfoOk(s.t, a);
    }
  }

  /** A session is cleared right after its request exactly when a BYE comes before its answer. */
  lemma StepUncut(s: State, e: Event)
    requires Booked(s) && Inv(s.t) && EnvOk(s, e) && Uncut(Records(s.log))
    ensures Uncut(Records(Step(s, e).log)) <==> !UnansweredBye(s.t, e)
  {
    StepPosts(s, e);
    if e.Bye? {
      ByeUncut(s, e);
    } else {
      OpenRecordsAreRequests(s);
      OnlyByeClears(s.t, s.retries, e);
      PostFewUncut(Records(s.log), StepRecords(s.t, s.retries, e));
    }
  }

  ghost predicate NoUnansweredBye(s: State, es: seq<Event>)
    decreases |es|
  {
    es == [] || (!UnansweredBye(s.t, es[0]) && NoUnansweredBye(Step(s, es[0]), es[1..]))
  }

  /** Unless a caller hangs up an unanswered call, a session's records are its request, then its
      cancellation or final answer, then its end if it was answered with 200. */
  lemma {:induction false} RunUncut(s: State, es: seq<Event>)
    requires Booked(s) && Inv(s.t) && Legal(s, es) && Uncut(Records(s.log)) && NoUnansweredBye(s, es)
    ensures Uncut(Records(Exec(s, es).log))
    decreases |es|
  {
    if es != [] {
      StepKeepsInv(s, es[0]);
      StepBooked(s, es[0]);
      StepUncut(s, es[0]);
      RunUncut(Step(s, es[0]), es[1..]);
    }
  }
}
