/** The controller as the source keeps it: member tables updated in place by one method per callback.
    Every method is proved to do exactly what its step function says. */
module Controller {
  import opened Bimaps
  import opened Options
  import opened CallTables
  import opened CallSteps
  import opened CallRuns
  import opened TrunkStats

  function Failed(s: State, o: Out): State {
    s.(t := o.t, faults := s.faults + o.faults)
  }

  /** No live object of the stack refers to leg `l`. */
  ghost predicate Unused(st: Stack, l: Leg) {
    && l !in st.legs
    && (forall i :: i in st.irqs ==> st.irqs[i].leg != l)
    && (forall o :: o in st.orqs ==> st.orqs[o].leg != l)
  }

  lemma NewIsUnused(t: Tables, l: Leg)
    requires Inv(t) && NewOrNullLeg(t, l) && l != NULL
    ensures Unused(t.stack, l)
  {
    forall o | o in t.stack.orqs ensures t.stack.orqs[o].leg != l { assert Linked(t, o); }
    forall i | i in t.stack.irqs ensures t.stack.irqs[i].leg != l { assert Linked(t, t.txns.left[i]); }
  }

  /** A leg made and destroyed again leaves no trace. */
  lemma MadeAndDestroyed(st: Stack, l: Leg)
    requires Unused(st, l)
    ensures st.(legs := st.legs + {l}).DestroyLeg(l) == st
  {
    var u := st.(legs := st.legs + {l}).DestroyLeg(l);
    assert u.irqs == st.irqs && u.orqs == st.orqs && u.legs == st.legs;
  }

  // ---- the step functions, path by path ----

  lemma OriginateStep(s: State, irq: Irq, serverFound: bool, a: Leg, b: Leg, orq: Orq, timerSecs: nat, uuid: string,
      now: nat)
    ensures var u := s.(clock := now, uuids := s.uuids + {uuid});
            var cdr := NewOriginationCdr(uuid, now);
            Step(s, Originate(irq, serverFound, a, b, orq, timerSecs, uuid, now))
            == if serverFound && a != NULL && b != NULL && orq != NULL then
                 Failed(u.(log := s.log + [Received(irq), InviteSent(irq, "", ToServer), Posted(cdr)]),
                        AddCall(s.t, irq, a, b, orq, None, NewInfo(a, timerSecs, uuid, now)))
               else
                 var st := if serverFound then 503 else 486;
                 u.(log := s.log + [Received(irq), Posted(cdr.(status := st, cause := SystemError)), Replied(irq, st)])
  {
  }

  lemma TerminateStep(s: State, irq: Irq, route: Option<Route>, a: Leg, b: Leg, orq: Orq, uuid: string, url: string,
      now: nat)
    ensures var u := s.(clock := now);
            Step(s, Terminate(irq, route, a, b, orq, uuid, url, now))
            == if route.None? then u.(log := s.log + [Received(irq)] + [Replied(irq, 480)])
               else if b == NULL || orq == NULL then u.(log := s.log + [Received(irq)] + [Replied(irq, 503)])
               else Failed(u.(stats := CountSend(s.stats, route.value.trunk),
                              log := s.log + [Received(irq)] + [InviteSent(irq, route.value.trunk, FirstRoute)]),
                           AddCall(s.t, irq, a, b, orq, Some(NewAttempt(route.value, uuid, url, now)),
                               Info(b, false, 0, false, false, None)))
  {
    assert forall o: Output :: s.log + [Received(irq)] + [o] == s.log + [Received(irq), o];
  }

  /** What a final answer to a termination does, one change after another. */
  function TermFinal(s: State, irq: Irq, orq: Orq, b: Leg, x: Attempt, status: nat, url: string, alt: Option<Route>,
                     newB: Leg, newOrq: Orq, now: nat): State {
    var s1 := s.(stats := RecordFailure(s.stats, x.trunk, status));
    var cdr := Posted(FinalCdr(x.cdr, TerminationTry, status, now));
    match Decide(x, status, url, alt, newB != NULL && newOrq != NULL, s.retries)
    case Redirect(x1) =>
      Failed(s1.(stats := CountSend(s1.stats, x1.trunk), log := s.log + [InviteSent(irq, x1.trunk, Redirected)]),
             MoveCall(s.t, irq, orq, b, newOrq, newB, x1))
    case Alternate(x1) =>
      Failed(s1.(stats := CountSend(s1.stats, x1.trunk),
                 log := s.log + [cdr] + [InviteSent(irq, x1.trunk, AlternateRoute)]),
             MoveCall(s.t, irq, orq, b, newOrq, newB, x1))
    case Lost(x1) =>
      Failed(s1.(log := s.log + [cdr] + [AlternateLost(irq)] + [Replied(irq, status)]
          + [Posted(FinalCdr(x1.cdr, TerminationTry, status, now))]),
             Ended(s.t, orq, b, status))
    case GiveUp => Failed(s1.(log := s.log + [Replied(irq, status)] + [cdr]), Ended(s.t, orq, b, status))
  }

  lemma InviteResponseStep(s: State, e: Event)
    requires e.InviteResponse?
    ensures var r := React(s.t, s.retries, e);
            var u := s.(clock := e.now);
            Step(s, e)
            == match r
               case Broken(f) => u.(faults := s.faults + {f})
               case Quiet => u
               case Ringing(irq) => u.(log := s.log + [Replied(irq, e.status)])
               case Answered(irq, a, b, f, cdr) =>
                 Failed(u.(log := s.log + [Replied(irq, e.status)]
                     + [Posted(FinalCdr(cdr, OriginationFinal, e.status, e.now))]),
                        Ended(if e.status == 200 then MarkAnswered(s.t, a, e.timerMade && f.timerSecs > 0) else s.t,
                              e.orq, b, e.status))
               case Tried(irq, b, x, _) => TermFinal(u, irq, e.orq, b, x, e.status, e.url, e.alt, e.b, e.newOrq, e.now)
  {
    Regroup(s.log);
    assert s.log + [] == s.log;
  }

  lemma CancelStep(s: State, irq: Irq, now: nat)
    requires irq in s.t.stack.irqs
    ensures var leg := s.t.stack.irqs[irq].leg;
            var u := s.(clock := now);
            Step(s, Cancel(irq, now))
            == if leg == NULL then u
               else if irq !in s.t.txns.left then Failed(u, ClearDialog(s.t, leg))
               else
                 var orq := s.t.txns.left[irq];
                 Failed(u.(log := s.log + PostedOrNone(CancelRecord(s.t, leg, orq, now))),
                        ClearDialog(EraseAttempt(ClearTransaction(s.t, orq), orq), leg))
  {
    assert s.log + [] == s.log;
  }

  lemma Regroup(log: seq<Output>)
    ensures forall o: Output, p: Output :: log + [o] + [p] == log + [o, p]
    ensures forall o: Output, p: Output, q: Output, r: Output :: log + [o] + [p] + [q] + [r] == log + [o, p, q, r]
  {
  }

  ghost predicate StatsOk(stats: map<string, Counters>) { forall k :: k in stats ==> stats[k].Ok() }

  lemma StatsStayOk(s: State, e: Event)
    requires StatsOk(s.stats)
    ensures StatsOk(Step(s, e).stats)
  {
    if e.InviteResponse? {
      var r := React(s.t, s.retries, e);
      if r.Tried? { assert StatsOk(RecordFailure(s.stats, r.x.trunk, e.status)); }
    }
  }

  lemma NewLegsUnused(s: State, e: Event)
    requires Inv(s.t) && EnvOk(s, e)
    ensures e.Originate? || e.Terminate? || e.InviteResponse? ==> e.b == NULL || Unused(s.t.stack, e.b)
    ensures e.Originate? || e.Terminate? ==> e.a == NULL || Unused(s.t.stack, e.a)
  {
    if (e.Originate? || e.Terminate? || e.InviteResponse?) && e.b != NULL { NewIsUnused(s.t, e.b); }
    if (e.Originate? || e.Terminate?) && e.a != NULL { NewIsUnused(s.t, e.a); }
  }

  class SipLbController {
    // the controller's own tables
    var transactions: Bimap<Irq, Orq>
    var dialogs: Bimap<Leg, Leg>
    var terminationAttempts: map<Orq, Attempt>
    var dialogInfos: map<Leg, Info>
    var trunkStats: map<string, Counters>
    const terminationRetries: nat
    // the world around it
    var stack: Stack
    var log: seq<Output>
    var faults: set<Fault>
    var clock: nat
    var uuids: set<string>

    ghost function T(): Tables
      reads this
    {
      Tables(transactions, dialogs, terminationAttempts, dialogInfos, stack)
    }

    ghost function S(): State
      reads this
    {
      State(T(), trunkStats, log, faults, clock, uuids, terminationRetries)
    }

    ghost predicate Valid()
      reads this
    {
      Inv(T())
    }

    constructor (retries: nat)
      ensures Valid() && S() == Init(retries)
    {
      transactions, dialogs := Bimap(map[], map[]), Bimap(map[], map[]);
      terminationAttempts, dialogInfos, trunkStats := map[], map[], map[];
      terminationRetries := retries;
      stack, log, faults, clock, uuids := Stack(map[], map[], {}), [], {}, 1, {};
      new;
      InitKeepsInv(retries);
    }

    // ---- table helpers ----

    method AddPair(irq: Irq, orq: Orq)
      modifies this`transactions, this`faults
      ensures T() == AddTransactions(old(T()), irq, orq).t
        && faults == old(faults) + AddTransactions(old(T()), irq, orq).faults
    {
      if irq in transactions.left || orq in transactions.right {
        faults := faults + {TxnInsertIgnored};
      } else {
        transactions := Bimap(transactions.left[irq := orq], transactions.right[orq := irq]);
      }
    }

    method DropTransaction(orq: Orq)
      modifies this`transactions, this`stack
      ensures T() == ClearTransaction(old(T()), orq)
    {
      var irq := NULL;
      if orq in transactions.right {
        irq := transactions.right[orq];
      }
      transactions := transactions.EraseRight(orq);
      stack := stack.DestroyIrq(irq);
      stack := stack.DestroyOrq(orq);
    }

    method UpdateOutgoingTransaction(irq: Irq, orq: Orq, newOrq: Orq)
      modifies this`transactions, this`stack, this`faults
      ensures T() == ReplaceTransaction(old(T()), irq, orq, newOrq).t
        && faults == old(faults) + ReplaceTransaction(old(T()), irq, orq, newOrq).faults
    {
      transactions := transactions.EraseRight(orq);
      stack := stack.DestroyOrq(orq);
      AddPair(irq, newOrq);
    }

    method AddLegs(a: Leg, b: Leg)
      modifies this`dialogs, this`faults
      ensures T() == AddDialogs(old(T()), a, b).t && faults == old(faults) + AddDialogs(old(T()), a, b).faults
    {
      if a in dialogs.left || b in dialogs.right {
        faults := faults + {DialogInsertIgnored};
      } else {
        dialogs := Bimap(dialogs.left[a := b], dialogs.right[b := a]);
      }
    }

    method DropDialog(leg: Leg)
      modifies this`dialogs, this`dialogInfos, this`stack, this`faults
      ensures T() == ClearDialog(old(T()), leg).t && faults == old(faults) + ClearDialog(old(T()), leg).faults
    {
      var other := Peer(dialogs, leg);
      stack := stack.DestroyLeg(leg);
      dialogs := dialogs.EraseLeft(leg);
      dialogs := dialogs.EraseRight(leg);
      dialogInfos := dialogInfos - {leg};
      if other.Some? {
        stack := stack.DestroyLeg(other.value);
        dialogInfos := dialogInfos - {other.value};
      } else {
        faults := faults + {ClearUnpaired};
      }
    }

    method MoveDialog(oldB: Leg, newB: Leg)
      modifies this`dialogs, this`dialogInfos, this`stack, this`faults
      ensures T() == UpdateDialog(old(T()), oldB, newB).t
        && faults == old(faults) + UpdateDialog(old(T()), oldB, newB).faults
    {
      var a := Peer(dialogs, oldB);
      if a.None? {
        faults := faults + {UpdateUnpaired};
        return;
      }
      dialogs := dialogs.EraseRight(oldB);
      AddLegs(a.value, newB);
      stack := stack.DestroyLeg(oldB);
      if oldB in dialogInfos {
        if newB !in dialogInfos {
          dialogInfos := dialogInfos[newB := dialogInfos[oldB].(leg := newB)];
        }
        dialogInfos := dialogInfos - {oldB};
      } else {
        faults := faults + {UpdateNoInfo};
      }
    }

    // ---- new calls ----

    /** Enters a call whose legs and transactions the stack already has into the tables; `t0` are the
        tables from before the stack made them. */
    method RecordCall(irq: Irq, a: Leg, b: Leg, orq: Orq, attempt: Option<Attempt>, info: Info, ghost t0: Tables)
      requires T() == t0.(stack := Stack(t0.stack.irqs[irq := InTxn(true, a)], t0.stack.orqs[orq := OutTxn(Invite, b)],
                                         t0.stack.legs + (if a == NULL then {} else {a}) + {b}))
      modifies this`transactions, this`dialogs, this`dialogInfos, this`terminationAttempts, this`faults
      ensures T() == AddCall(t0, irq, a, b, orq, attempt, info).t
        && faults == old(faults) + AddCall(t0, irq, a, b, orq, attempt, info).faults
    {
      if attempt.Some? && orq !in terminationAttempts {
        terminationAttempts := terminationAttempts[orq := attempt.value];
      }
      if info.leg !in dialogInfos {
        dialogInfos := dialogInfos[info.leg := info];
      }
      AddPair(irq, orq);
      AddLegs(a, b);
    }

    /** Legs and outgoing transaction of an origination; on failure what was made is destroyed again. */
    method MakeOrigination(irq: Irq, a: Leg, b: Leg, orq: Orq) returns (ok: bool)
      requires (a != NULL ==> Unused(stack, a)) && (b != NULL ==> Unused(stack, b)) && (a == b ==> a == NULL)
      modifies this`stack
      ensures ok == (a != NULL && b != NULL && orq != NULL)
      ensures stack == if ok then Stack(old(stack.irqs)[irq := InTxn(true, a)],
        old(stack.orqs)[orq := OutTxn(Invite, b)], old(stack.legs) + {a} + {b})
                       else old(stack)
    {
      if a == NULL { return false; }
      MadeAndDestroyed(stack, a);
      stack := stack.(legs := stack.legs + {a});
      if b == NULL {
        stack := stack.DestroyLeg(a);
        return false;
      }
      MadeAndDestroyed(stack, b);
      stack := stack.(legs := stack.legs + {b});
      if orq == NULL {
        stack := stack.DestroyLeg(b);
        stack := stack.DestroyLeg(a);
        return false;
      }
      stack := Stack(stack.irqs[irq := InTxn(true, a)], stack.orqs[orq := OutTxn(Invite, b)], stack.legs);
      return true;
    }

    method StartOrigination(irq: Irq, a: Leg, b: Leg, orq: Orq, info: Info) returns (ok: bool)
      requires (a != NULL ==> Unused(stack, a)) && (b != NULL ==> Unused(stack, b)) && (a == b ==> a == NULL)
      modifies this`transactions, this`dialogs, this`terminationAttempts, this`dialogInfos, this`stack, this`faults
      ensures ok == (a != NULL && b != NULL && orq != NULL)
      ensures !ok ==> S() == old(S())
      ensures var o := AddCall(old(T()), irq, a, b, orq, None, info);
              ok ==> T() == o.t && faults == old(faults) + o.faults
    {
      ghost var t0 := T();
      ok := MakeOrigination(irq, a, b, orq);
      if ok { RecordCall(irq, a, b, orq, None, info, t0); }
    }

    method RefuseOrigination(irq: Irq, status: nat, uuid: string, now: nat)
      modifies this`clock, this`uuids, this`log
      ensures clock == now && uuids == old(uuids) + {uuid}
      ensures log == old(log) + [Received(irq),
        Posted(NewOriginationCdr(uuid, now).(status := status, cause := SystemError)), Replied(irq, status)]
    {
      clock, uuids := now, uuids + {uuid};
      var cdr := NewOriginationCdr(uuid, now);
      log := log + [Received(irq), Posted(cdr.(status := status, cause := SystemError)), Replied(irq, status)];
    }

    method ProcessOriginationRequest(irq: Irq, serverFound: bool, a: Leg, b: Leg, orq: Orq, timerSecs: nat,
        uuid: string, now: nat)
        returns (status: nat)
      requires (a != NULL ==> Unused(stack, a)) && (b != NULL ==> Unused(stack, b)) && (a == b ==> a == NULL)
      modifies this
      ensures S() == Step(old(S()), Originate(irq, serverFound, a, b, orq, timerSecs, uuid, now))
      ensures status == if !serverFound then 486 else if a == NULL || b == NULL || orq == NULL then 503 else 0
    {
      ghost var s0 := S();
      OriginateStep(s0, irq, serverFound, a, b, orq, timerSecs, uuid, now);
      if !serverFound {
        RefuseOrigination(irq, 486, uuid, now);
        return 486;
      }
      var made := StartOrigination(irq, a, b, orq, NewInfo(a, timerSecs, uuid, now));
      if !made {
        RefuseOrigination(irq, 503, uuid, now);
        return 503;
      }
      clock, uuids := now, uuids + {uuid};
      log := log + [Received(irq), InviteSent(irq, "", ToServer), Posted(NewOriginationCdr(uuid, now))];
      return 0;
    }

    /** Sends a termination's INVITE and counts it; false when the stack cannot make it. */
    method GenerateTerminationRequest(x: Attempt, irq: Irq, newB: Leg, newOrq: Orq, why: Why) returns (ok: bool)
      requires newB != NULL ==> Unused(stack, newB)
      modifies this`stack, this`log, this`trunkStats
      ensures ok == (newB != NULL && newOrq != NULL)
      ensures !ok ==> S() == old(S())
      ensures ok ==>
                && stack == old(stack).(orqs := old(stack.orqs)[newOrq := OutTxn(Invite, newB)],
                  legs := old(stack.legs) + {newB})
                && log == old(log) + [InviteSent(irq, x.trunk, why)]
                && trunkStats == CountSend(old(trunkStats), x.trunk)
    {
      if newB == NULL { return false; }
      MadeAndDestroyed(stack, newB);
      stack := stack.(legs := stack.legs + {newB});
      if newOrq == NULL {
        stack := stack.DestroyLeg(newB);
        return false;
      }
      stack := stack.(orqs := stack.orqs[newOrq := OutTxn(Invite, newB)]);
      log := log + [InviteSent(irq, x.trunk, why)];
      if x.trunk in trunkStats {
        trunkStats := trunkStats[x.trunk := CountAttempt(trunkStats[x.trunk])];
      } else {
        trunkStats := trunkStats[x.trunk := CountAttempt(ZERO)];
      }
      return true;
    }

    /** The INVITE of a new termination, with its A leg (whose creation the source does not check). */
    method MakeTermination(irq: Irq, x: Attempt, a: Leg, b: Leg, orq: Orq) returns (ok: bool)
      requires (a != NULL ==> Unused(stack, a)) && (b != NULL ==> Unused(stack, b)) && (a == b ==> a == NULL)
      modifies this`stack, this`log, this`trunkStats
      ensures ok == (b != NULL && orq != NULL)
      ensures !ok ==> stack == old(stack) && log == old(log) && trunkStats == old(trunkStats)
      ensures ok ==>
                && stack == Stack(old(stack.irqs)[irq := InTxn(true, a)], old(stack.orqs)[orq := OutTxn(Invite, b)],
                                  old(stack.legs) + (if a == NULL then {} else {a}) + {b})
                && log == old(log) + [InviteSent(irq, x.trunk, FirstRoute)]
                && trunkStats == CountSend(old(trunkStats), x.trunk)
    {
      if a != NULL {
        MadeAndDestroyed(stack, a);
        stack := stack.(legs := stack.legs + {a});
      }
      ok := GenerateTerminationRequest(x, irq, b, orq, FirstRoute);
      if ok {
        stack := stack.(irqs := stack.irqs[irq := InTxn(true, a)]);
      } else if a != NULL {
        stack := stack.DestroyLeg(a);
      }
    }

    method ProcessTerminationRequest(irq: Irq, route: Option<Route>, a: Leg, b: Leg, orq: Orq, uuid: string,
        url: string, now: nat)
        returns (status: nat)
      requires (a != NULL ==> Unused(stack, a)) && (b != NULL ==> Unused(stack, b)) && (a == b ==> a == NULL)
      modifies this
      ensures S() == Step(old(S()), Terminate(irq, route, a, b, orq, uuid, url, now))
      ensures status == if route.None? then 480 else if b == NULL || orq == NULL then 503 else 0
    {
      ghost var s0 := S();
      TerminateStep(s0, irq, route, a, b, orq, uuid, url, now);
      clock := now;
      log := log + [Received(irq)];
      if route.None? {
        log := log + [Replied(irq, 480)];
        return 480;
      }
      var made := StartTermination(irq, NewAttempt(route.value, uuid, url, now), a, b, orq);
      if !made {
        log := log + [Replied(irq, 503)];
        return 503;
      }
      return 0;
    }

    method StartTermination(irq: Irq, x: Attempt, a: Leg, b: Leg, orq: Orq) returns (ok: bool)
      requires (a != NULL ==> Unused(stack, a)) && (b != NULL ==> Unused(stack, b)) && (a == b ==> a == NULL)
      modifies this`transactions, this`dialogs, this`terminationAttempts, this`dialogInfos, this`stack, this`log,
        this`trunkStats, this`faults
      ensures ok == (b != NULL && orq != NULL)
      ensures !ok ==> S() == old(S())
      ensures var o := AddCall(old(T()), irq, a, b, orq, Some(x), Info(b, false, 0, false, false, None));
              ok ==>
                && T() == o.t && faults == old(faults) + o.faults
                && log == old(log) + [InviteSent(irq, x.trunk, FirstRoute)]
                && trunkStats == CountSend(old(trunkStats), x.trunk)
    {
      ghost var t0 := T();
      ok := MakeTermination(irq, x, a, b, orq);
      if ok { RecordCall(irq, a, b, orq, Some(x), Info(b, false, 0, false, false, None), t0); }
    }

    // ---- answers to a call's INVITE ----

    /** Sends a pending termination again, on a new leg and transaction that take over its entries. */
    method Resend(irq: Irq, orq: Orq, b: Leg, x: Attempt, why: Why, newB: Leg, newOrq: Orq) returns (ok: bool)
      requires newB != NULL ==> Unused(stack, newB)
      modifies this`transactions, this`dialogs, this`terminationAttempts, this`dialogInfos, this`stack, this`log,
        this`trunkStats, this`faults
      ensures ok == (newB != NULL && newOrq != NULL)
      ensures !ok ==> S() == old(S())
      ensures ok ==>
                && T() == MoveCall(old(T()), irq, orq, b, newOrq, newB, x).t
                && faults == old(faults) + MoveCall(old(T()), irq, orq, b, newOrq, newB, x).faults
                && log == old(log) + [InviteSent(irq, x.trunk, why)]
                && trunkStats == CountSend(old(trunkStats), x.trunk)
    {
      ok := GenerateTerminationRequest(x, irq, newB, newOrq, why);
      if !ok { return; }
      UpdateOutgoingTransaction(irq, orq, newOrq);
      terminationAttempts := terminationAttempts - {orq};
      if newOrq !in terminationAttempts {
        terminationAttempts := terminationAttempts[newOrq := x];
      }
      MoveDialog(b, newB);
    }

    /** Answers the caller, drops the transactions and, unless the call is up, the legs. */
    method Finish(irq: Irq, orq: Orq, b: Leg, status: nat, cdr: Cdr)
      modifies this`transactions, this`dialogs, this`terminationAttempts, this`dialogInfos, this`stack, this`log,
        this`faults
      ensures T() == Ended(old(T()), orq, b, status).t && faults == old(faults) + Ended(old(T()), orq, b, status).faults
      ensures log == old(log) + [Replied(irq, status)] + [Posted(cdr)]
    {
      var bClearTransaction, bDestroyLegs := true, status != 200;
      terminationAttempts := terminationAttempts - {orq};
      log := log + [Replied(irq, status)];
      if bClearTransaction {
        DropTransaction(orq);
      }
      if bDestroyLegs {
        DropDialog(b);
      }
      log := log + [Posted(cdr)];
    }

    /** Follows a redirect or an alternate route, if there is one to follow; otherwise the answer is
        to be passed on. `x` is the attempt as it is left. */
    method TryOther(irq: Irq, orq: Orq, b: Leg, status: nat, url: string, alt: Option<Route>, newB: Leg, newOrq: Orq,
        now: nat)
        returns (bProxyResponse: bool, x: Attempt)
      requires orq in terminationAttempts && (newB != NULL ==> Unused(stack, newB))
      modifies this`transactions, this`dialogs, this`terminationAttempts, this`dialogInfos, this`stack, this`log,
        this`trunkStats, this`faults
      ensures var x0 := old(terminationAttempts[orq]);
              var v := Decide(x0, status, url, alt, newB != NULL && newOrq != NULL, terminationRetries);
              && bProxyResponse == (v.Lost? || v.GiveUp?)
              && x == (if v.GiveUp? then x0 else v.x)
              && (bProxyResponse ==> T() == old(T()) && faults == old(faults) && trunkStats == old(trunkStats))
              && (!bProxyResponse ==>
                    && T() == MoveCall(old(T()), irq, orq, b, newOrq, newB, x).t
                    && faults == old(faults) + MoveCall(old(T()), irq, orq, b, newOrq, newB, x).faults
                    && trunkStats == CountSend(old(trunkStats), x.trunk))
              && log == match v
                        case Redirect(_) => old(log) + [InviteSent(irq, x.trunk, Redirected)]
                        case Alternate(_) => old(log) + [Posted(FinalCdr(x0.cdr, TerminationTry, status, now))]
                          + [InviteSent(irq, x.trunk, AlternateRoute)]
                        case Lost(_) => old(log) + [Posted(FinalCdr(x0.cdr, TerminationTry, status, now))]
                          + [AlternateLost(irq)]
                        case GiveUp => old(log)
    {
      x := terminationAttempts[orq];
      bProxyResponse := true;
      if 300 <= status <= 399 {
        var sent := Resend(irq, orq, b, x.(url := url), Redirected, newB, newOrq);
        if sent {
          x, bProxyResponse := x.(url := url), false;
        }
      } else if (status == 503 || status == 480) && x.count < RetryLimit(terminationRetries) && alt.Some? {
        log := log + [Posted(FinalCdr(x.cdr, TerminationTry, status, now))];
        x := Crankback(x, alt.value, url);
        var sent := Resend(irq, orq, b, x, AlternateRoute, newB, newOrq);
        if sent {
          bProxyResponse := false;
        } else {
          log := log + [AlternateLost(irq)];
        }
      }
    }

    method CountTrunkFailure(trunk: string, status: nat)
      requires StatsOk(trunkStats)
      modifies this`trunkStats
      ensures trunkStats == RecordFailure(old(trunkStats), trunk, status)
    {
      if 400 <= status <= 700 && trunk in trunkStats && status < SLOTS {
        trunkStats := trunkStats[trunk := CountFailure(trunkStats[trunk], status)];
      }
    }

    method FinishTermination(irq: Irq, orq: Orq, b: Leg, status: nat, url: string, alt: Option<Route>, newB: Leg,
        newOrq: Orq, now: nat)
      requires orq in terminationAttempts && (newB != NULL ==> Unused(stack, newB)) && 200 <= status
      requires StatsOk(trunkStats)
      modifies this`transactions, this`dialogs, this`terminationAttempts, this`dialogInfos, this`stack, this`log,
        this`trunkStats, this`faults
      ensures S() == TermFinal(old(S()), irq, orq, b, old(terminationAttempts[orq]), status, url, alt, newB, newOrq,
        now)
    {
      CountTrunkFailure(terminationAttempts[orq].trunk, status);
      var bProxyResponse, x := TryOther(irq, orq, b, status, url, alt, newB, newOrq, now);
      if bProxyResponse {
        Finish(irq, orq, b, status, FinalCdr(x.cdr, TerminationTry, status, now));
      }
    }

    method FinishOrigination(irq: Irq, orq: Orq, a: Leg, b: Leg, status: nat, timerMade: bool, now: nat)
      requires a in dialogInfos && dialogInfos[a].cdr.Some? && orq !in terminationAttempts
      modifies this`transactions, this`dialogs, this`terminationAttempts, this`dialogInfos, this`stack, this`log,
        this`faults
      ensures var f := old(dialogInfos[a]);
              var t0 := old(T());
              var o := Ended(if status == 200 then MarkAnswered(t0, a, timerMade && f.timerSecs > 0) else t0,
                             orq, b, status);
              && T() == o.t && faults == old(faults) + o.faults
              && log == old(log) + [Replied(irq, status)]
                + [Posted(FinalCdr(f.cdr.value, OriginationFinal, status, now))]
    {
      var cdr := dialogInfos[a].cdr.value;
      if status == 200 {
        var f := dialogInfos[a].(answered := true);
        if f.timerSecs > 0 && timerMade {
          f := f.(timer := true);
        }
        dialogInfos := dialogInfos[a := f];
      }
      Finish(irq, orq, b, status, FinalCdr(cdr, OriginationFinal, status, now));
    }

    method ProcessInviteResponse(orq: Orq, status: nat, url: string, alt: Option<Route>, b: Leg, newOrq: Orq,
        timerMade: bool, now: nat)
      requires orq in stack.orqs && 100 <= status && (b != NULL ==> Unused(stack, b)) && StatsOk(trunkStats)
      modifies this
      ensures S() == Step(old(S()), InviteResponse(orq, status, url, alt, b, newOrq, timerMade, now))
    {
      ghost var s0, e := S(), InviteResponse(orq, status, url, alt, b, newOrq, timerMade, now);
      InviteResponseStep(s0, e);
      clock := now;
      var irq := if orq in transactions.right then transactions.right[orq] else NULL;
      if irq == NULL {
        faults := faults + {InviteTxnGone};
        return;
      }
      var outgoingLeg := stack.orqs[orq].leg;
      if outgoingLeg == NULL {
        faults := faults + {InviteLegGone};
        return;
      }
      var a := if irq in stack.irqs then stack.irqs[irq].leg else NULL;
      if a == NULL {
        faults := faults + {InviteALegGone};
        return;
      }
      var termination := orq in terminationAttempts;
      if !termination && (a !in dialogInfos || dialogInfos[a].cdr.None?) {
        faults := faults + {InviteCdrGone};
        return;
      }
      if status < 200 {
        if status != 100 {
          log := log + [Replied(irq, status)];
        }
      } else if termination {
        FinishTermination(irq, orq, outgoingLeg, status, url, alt, b, newOrq, now);
      } else {
        FinishOrigination(irq, orq, a, outgoingLeg, status, timerMade, now);
      }
    }

    // ---- CANCEL, BYE, in-dialog traffic and timers ----

    method ProcessCancel(irq: Irq, now: nat)
      requires irq in stack.irqs
      modifies this
      ensures S() == Step(old(S()), Cancel(irq, now))
    {
      CancelStep(S(), irq, now);
      clock := now;
      var leg := stack.irqs[irq].leg;
      if irq !in transactions.left {
        if leg != NULL { DropDialog(leg); }
        return;
      }
      if leg == NULL { return; }
      var orq := transactions.left[irq];
      PostCancel(leg, orq, now);
      DropTransaction(orq);
      terminationAttempts := terminationAttempts - {orq};
      DropDialog(leg);
    }

    method PostCancel(leg: Leg, orq: Orq, now: nat)
      modifies this`log
      ensures log == old(log) + PostedOrNone(CancelRecord(T(), leg, orq, now))
    {
      if leg in dialogInfos {
        if dialogInfos[leg].cdr.Some? {
          log := log + [Posted(CancelCdr(dialogInfos[leg].cdr.value, now))];
        }
      } else if orq in terminationAttempts {
        log := log + [Posted(FinalCdr(terminationAttempts[orq].cdr, TerminationTry, 487, now))];
      }
      assert log + [] == log;
    }

    method ProcessBye(leg: Leg, irq: Irq, now: nat)
      modifies this
      ensures S() == Step(old(S()), Bye(leg, irq, now))
    {
      ghost var s0 := S();
      clock := now;
      log := log + [Received(irq)];
      var other := Peer(dialogs, leg);
      if other.None? {
        faults := faults + {DialogPeerGone};
        return;
      }
      var cdr := None;
      if leg in dialogInfos && dialogInfos[leg].origination && dialogInfos[leg].cdr.Some? {
        cdr := Some(ByeCdr(dialogInfos[leg].cdr.value, true, now));
      } else if other.value in dialogInfos && dialogInfos[other.value].origination
          && dialogInfos[other.value].cdr.Some? {
        cdr := Some(ByeCdr(dialogInfos[other.value].cdr.value, false, now));
      }
      assert cdr == ByeRecord(s0.t, leg, now);
      log := log + PostedOrNone(cdr);
      DropDialog(leg);
      log := log + [Replied(irq, 200)];
    }

    method ProcessForward(leg: Leg, irq: Irq, orq: Orq)
      modifies this
      ensures S() == Step(old(S()), Forward(leg, irq, orq))
    {
      log := log + [Received(irq)];
      var other := Peer(dialogs, leg);
      if other.None? {
        faults := faults + {DialogPeerGone};
        return;
      }
      stack := stack.(irqs := stack.irqs[irq := InTxn(false, NULL)]);
      if orq != NULL {
        stack := stack.(orqs := stack.orqs[orq := OutTxn(InDialog, other.value)]);
      }
      AddPair(irq, orq);
    }

    method ProcessResponseInsideDialog(orq: Orq, status: nat, toInvite: bool)
      modifies this
      ensures S() == Step(old(S()), Answer(orq, status, toInvite))
    {
      var irq := if orq in transactions.right then transactions.right[orq] else NULL;
      if irq == NULL {
        faults := faults + {TxnGone};
        return;
      }
      log := log + [Replied(irq, status)];
      if toInvite && status == 200 {
        var leg := if orq in stack.orqs then stack.orqs[orq].leg else NULL;
        if leg == NULL { faults := faults + {ReinviteLegGone}; }
      }
      if status >= 200 {
        DropTransaction(orq);
      }
    }

    method ProcessSessionRefreshTimer(leg: Leg)
      modifies this
      ensures S() == Step(old(S()), SessionTimer(leg))
    {
      assert log + [] == log;
      if leg in dialogInfos {
        var other := Peer(dialogs, leg);
        if other.None? {
          faults := faults + {TimerPeerGone};
        } else {
          DropDialog(leg);
        }
      }
    }

    method ResetOutboundTrunkStats()
      modifies this`trunkStats
      ensures S() == Step(old(S()), ResetStats)
    {
      assert log + [] == log;
      trunkStats := map k | k in trunkStats :: ZERO;
    }

    /** Any callback the environment can make is served as its step says and leaves the tables consistent. */
    method Serve(e: Event)
      requires Valid() && StatsOk(trunkStats) && EnvOk(S(), e) && !UncheckedNull(e)
      modifies this
      ensures Valid() && StatsOk(trunkStats)
      ensures S() == Step(old(S()), e)
    {
      ghost var s0 := S();
      StepKeepsInv(s0, e);
      StatsStayOk(s0, e);
      NewLegsUnused(s0, e);
      match e {
        case Originate(irq, serverFound, a, b, orq, timerSecs, uuid, now) =>
          var _ := ProcessOriginationRequest(irq, serverFound, a, b, orq, timerSecs, uuid, now);
        case Terminate(irq, route, a, b, orq, uuid, url, now) =>
          var _ := ProcessTerminationRequest(irq, route, a, b, orq, uuid, url, now);
        case InviteResponse(orq, status, url, alt, b, newOrq, timerMade, now) =>
          ProcessInviteResponse(orq, status, url, alt, b, newOrq, timerMade, now);
        case Cancel(irq, now) => ProcessCancel(irq, now);
        case Bye(leg, irq, now) => ProcessBye(leg, irq, now);
        case Forward(leg, irq, orq) => ProcessForward(leg, irq, orq);
        case Answer(orq, status, toInvite) => ProcessResponseInsideDialog(orq, status, toInvite);
        case SessionTimer(leg) => ProcessSessionRefreshTimer(leg);
        case ResetStats => ResetOutboundTrunkStats();
      }
    }

    /** Any run the environment can produce takes the tables where the steps say. */
    method ServeAll(es: seq<Event>)
      requires Valid() && StatsOk(trunkStats) && Legal(S(), es)
      modifies this
      ensures Valid() && S() == Exec(old(S()), es)
    {
      var i := 0;
      assert es[0..] == es;
      while i < |es|
        invariant 0 <= i <= |es| && Valid() && StatsOk(trunkStats)
        invariant Legal(S(), es[i..]) && Exec(S(), es[i..]) == Exec(old(S()), es)
      {
        assert es[i..][0] == es[i] && es[i..][1..] == es[i + 1..];
        Serve(es[i]);
        i := i + 1;
      }
    }
  }
}
