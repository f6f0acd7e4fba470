/** Runs from the empty state that do meet the faults and losses the run theorems allow. */
module CallWitnesses {
  import opened Options
  import opened CallTables
  import opened CallSteps
  import opened CallRuns

  const TRUNK: Route := Route("t", "c")

  /** An origination and a termination on handles 1, with legs 1 and 2. */
  const ORIGINATE: Event := Originate(1, true, 1, 2, 1, 0, "u", 1)
  const TERMINATE: Event := Terminate(1, Some(TRUNK), 1, 2, 1, "u", "url", 1)
  const NULL_LEG: Event := Terminate(1, Some(TRUNK), NULL, 2, 1, "u", "url", 1)

  function Answered(status: nat, alt: Option<Route>): Event { InviteResponse(1, status, "", alt, NULL, NULL, false, 1) }

  lemma RunOfTwo(s: State, e: Event, f: Event)
    requires EnvOk(s, e) && !UncheckedNull(e) && EnvOk(Step(s, e), f) && !UncheckedNull(f)
    ensures Legal(s, [e, f]) && Exec(s, [e, f]) == Step(Step(s, e), f)
  {
    assert [e, f][1..] == [f] && [f][1..] == [];
    assert Legal(Step(Step(s, e), f), []);
    assert Legal(Step(s, e), [f]);
    assert Exec(Step(s, e), [f]) == Exec(Step(Step(s, e), f), []);
  }

  lemma {:induction false} RunThen(s: State, es: seq<Event>, e: Event)
    requires Legal(s, es) && EnvOk(Exec(s, es), e) && !UncheckedNull(e)
    ensures Legal(s, es + [e]) && Exec(s, es + [e]) == Step(Exec(s, es), e)
    decreases |es|
  {
    if es == [] {
      assert es + [e] == [e] && [e][1..] == [];
      assert Legal(Step(s, e), []) && Exec(Step(s, e), []) == Step(s, e);
    } else {
      assert (es + [e])[1..] == es[1..] + [e];
      RunThen(Step(s, es[0]), es[1..], e);
    }
  }

  /** Hanging up before the answer, then the answer. */
  lemma LateAnswerHappens()
    ensures var es := [ORIGINATE, Bye(1, 2, 1)] + [Answered(200, None)];
      Legal(Init(0), es) && Exec(Init(0), es).faults == {InviteLegGone}
  {
    var s1 := Calling();
    var s2 := Step(s1, Bye(1, 2, 1));
    assert s2.t.stack.orqs == map[1 := OutTxn(Invite, NULL)] && s2.t.txns.right == map[1 := 1] && s2.faults == {};
    RunOfTwo(Init(0), ORIGINATE, Bye(1, 2, 1));
    RunThen(Init(0), [ORIGINATE, Bye(1, 2, 1)], Answered(200, None));
  }

  lemma Calling() returns (s: State)
    ensures s == Step(Init(0), ORIGINATE) && s.faults == {} && s.clock == 1
    ensures s.t.stack == Stack(map[1 := InTxn(true, 1)], map[1 := OutTxn(Invite, 2)], {1, 2})
    ensures s.t.txns.right == map[1 := 1] && s.t.dialogs.left == map[1 := 2] && s.t.dialogs.right == map[2 := 1]
  {
    s := Step(Init(0), ORIGINATE);
  }

  /** A re-INVITE under way when the call is hung up, then its 200. */
  lemma LateReinviteHappens()
    ensures var es := [TERMINATE, Answered(200, None)] + [Forward(1, 2, 2)] + [Bye(1, 3, 1)] + [Answer(2, 200, true)];
      Legal(Init(2), es) && Exec(Init(2), es).faults == {ReinviteLegGone}
  {
    var s3 := RequestUnderWay();
    var s4 := HungUp(s3);
    var es := [TERMINATE, Answered(200, None)] + [Forward(1, 2, 2)];
    RunThen(Init(2), es, Bye(1, 3, 1));
    RunThen(Init(2), es + [Bye(1, 3, 1)], Answer(2, 200, true));
  }

  lemma HungUp(s: State) returns (u: State)
    requires s.t.stack.orqs == map[2 := OutTxn(InDialog, 2)] && s.faults == {} && s.t.txns.right == map[2 := 2]
    requires s.t.dialogs.left == map[1 := 2]
    ensures u == Step(s, Bye(1, 3, 1)) && u.t.stack.orqs == map[2 := OutTxn(InDialog, NULL)]
    ensures u.t.txns.right == map[2 := 2] && u.faults == {}
  {
    u := Step(s, Bye(1, 3, 1));
  }

  lemma RequestUnderWay() returns (s: State)
    ensures var es := [TERMINATE, Answered(200, None)] + [Forward(1, 2, 2)];
      Legal(Init(2), es) && s == Exec(Init(2), es)
    ensures s.t.stack == Stack(map[2 := InTxn(false, NULL)], map[2 := OutTxn(InDialog, 2)], {1, 2}) && s.faults == {}
    ensures s.t.txns.right == map[2 := 2] && s.t.dialogs.left == map[1 := 2] && s.clock == 1
  {
    var up := CallUp();
    s := Step(up, Forward(1, 2, 2));
    RunThen(Init(2), [TERMINATE, Answered(200, None)], Forward(1, 2, 2));
  }

  /** A termination that has been answered. */
  lemma CallUp() returns (s: State)
    ensures Legal(Init(2), [TERMINATE, Answered(200, None)]) && s == Exec(Init(2), [TERMINATE, Answered(200, None)])
    ensures s.t.stack == Stack(map[], map[], {1, 2}) && s.t.dialogs.left == map[1 := 2]
      && s.t.dialogs.right == map[2 := 1]
    ensures s.t.txns.left == map[] && s.t.txns.right == map[] && s.faults == {} && s.clock == 1
  {
    var s1 := Step(Init(2), TERMINATE);
    assert s1.t.stack == Stack(map[1 := InTxn(true, 1)], map[1 := OutTxn(Invite, 2)], {1, 2});
    assert s1.t.txns.left == map[1 := 1] && s1.t.txns.right == map[1 := 1] && s1.t.dialogs.left == map[1 := 2];
    assert 1 in s1.t.attempts && s1.faults == {};
    s := Step(s1, Answered(200, None));
    RunOfTwo(Init(2), TERMINATE, Answered(200, None));
  }

  /** An alternate route whose INVITE cannot be made. */
  lemma AlternateLostHappens()
    ensures var es := [TERMINATE, Answered(503, Some(TRUNK))];
      Legal(Init(2), es) && AlternateLost(1) in Exec(Init(2), es).log
  {
    var s1 := Step(Init(2), TERMINATE);
    assert s1.t.stack.orqs == map[1 := OutTxn(Invite, 2)] && s1.t.stack.irqs == map[1 := InTxn(true, 1)];
    assert s1.t.txns.right == map[1 := 1] && 1 in s1.t.attempts && s1.t.attempts[1].count == 0;
    RunOfTwo(Init(2), TERMINATE, Answered(503, Some(TRUNK)));
  }

  /** The unchecked null A leg, straight away. */
  lemma NullLegHappens()
    ensures var e := NULL_LEG; EnvOk(Init(2), e) && !Inv(Step(Init(2), e).t)
  {
    InitKeepsInv(2);
    StepKeepsInv(Init(2), NULL_LEG);
  }

  /** The unchecked null transaction, once a call is up. */
  lemma NullTransactionHappens()
    ensures var s := Exec(Init(2), [TERMINATE, Answered(200, None)]);
      && Legal(Init(2), [TERMINATE, Answered(200, None)])
      && EnvOk(s, Forward(1, 2, NULL)) && !Inv(Step(s, Forward(1, 2, NULL)).t)
  {
    var s := CallUp();
    InitKeepsInv(2);
    RunKeepsInv(Init(2), [TERMINATE, Answered(200, None)]);
    StepKeepsInv(s, Forward(1, 2, NULL));
  }
}
