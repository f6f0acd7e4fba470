/** What holds after every run of the stateful controller from its empty state. */
module CallGuarantees {
  import opened CallTables
  import opened CallSteps
  import opened CallRuns
  import opened CallFaults
  import opened CallForwards
  import opened CallAwaited
  import opened CallAccounting
  import opened CallReplies
  import opened CallAlternates
  import opened CallTrunks
  import opened CdrRows
  import opened CdrBook
  import opened CallRecords

  lemma EmptyStateFits(retries: nat)
    ensures var s := Init(retries);
      && Inv(s.t) && HasLegs(s.t) && Balanced(s) && OneFinalReply(s) && WithinLimit(s)
      && Booked(s) && Uncut(Records(s.log)) && Covered(s.stats, s.t.attempts)
      && ForwardsHaveLegs(s.t) && Awaited(s.t)
  {
    InitKeepsInv(retries);
    InitBooked(retries);
    forall k: string ensures InProgress(map[], k) == 0 { assert OnTrunk(map[], k) == {}; }
    TrunkStats.SumOfZeroes(TrunkStats.ZERO.fails);
  }

  /** Whatever the environment does: the tables are consistent, only late answers meet an assertion,
      every request has at most one final reply, re-sends stay within the limit, termination records
      balance, and every session's records are a legal history whose rows have ordered times. */
  lemma EveryRun(retries: nat, es: seq<Event>)
    requires Legal(Init(retries), es)
    ensures var s := Exec(Init(retries), es);
      && Inv(s.t) && s.faults <= {InviteLegGone, ReinviteLegGone}
      && OneFinalReply(s) && WithinLimit(s) && Balanced(s)
      && (forall u: string :: LegalHistory(History(Records(s.log), u)))
      && RowsOk(Replay(Records(s.log)), s.clock)
  {
    var s := Init(retries);
    EmptyStateFits(retries);
    RunKeepsInv(s, es);
    RunOneFinalReply(s, es);
    RunWithinLimit(s, es);
    RunBalanced(s, es);
    RunBooked(s, es);
  }

  /** And if nobody hangs up a call before its answer: no INVITE's answer meets an assertion and no
      session is cleared straight after its request. */
  lemma EveryPatientRun(retries: nat, es: seq<Event>)
    requires Legal(Init(retries), es) && NoEarlyBye(Init(retries), es)
    ensures var s := Exec(Init(retries), es);
      HasLegs(s.t) && s.faults <= {ReinviteLegGone} && Uncut(Records(s.log))
  {
    EmptyStateFits(retries);
    NoEarlyByeSuffices(Init(retries), es);
    RunFindsLegs(Init(retries), es);
    RunUncut(Init(retries), es);
  }

  /** And if no call is taken down under a forwarded request either, no assertion is met at all. */
  lemma EveryQuietRun(retries: nat, es: seq<Event>)
    requires Legal(Init(retries), es) && NoEarlyBye(Init(retries), es) && NoCutForward(Init(retries), es)
    ensures Exec(Init(retries), es).faults == {}
  {
    EmptyStateFits(retries);
    RunMeetsNoFault(Init(retries), es);
  }

  /** And if every re-send is made: termination records are exactly the INVITEs sent less the
      redirected ones less those in progress. */
  lemma EveryRunWithResends(retries: nat, es: seq<Event>)
    requires Legal(Init(retries), es) && ResendsMade(es)
    ensures var s := Exec(Init(retries), es);
      Tally(s.log, TerminationRecords())
      == Tally(s.log, TerminationInvites()) - Tally(s.log, RedirectedInvites()) - |s.t.attempts|
  {
    EmptyStateFits(retries);
    RunBalancedExactly(Init(retries), es);
  }

  /** And between counter resets: on every trunk attempts cover failures and attempts in progress. */
  lemma EveryCountedRun(retries: nat, es: seq<Event>)
    requires Legal(Init(retries), es) && Counting(Init(retries), es)
    ensures var s := Exec(Init(retries), es); Covered(s.stats, s.t.attempts)
  {
    EmptyStateFits(retries);
    RunCovered(Init(retries), es);
  }
}
