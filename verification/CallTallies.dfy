/** What the trunk counters show, exactly: the INVITEs sent on a trunk, and the failures answered. */
module CallTallies {
  import opened CallTables
  import opened CallSteps
  import opened CallRuns
  import opened CallAccounting
  import opened CallTrunks
  import opened TrunkStats

  /** INVITEs of terminations sent on trunk `k`. */
  function SentOn(k: string): Output -> int {
    (o: Output) => if o.InviteSent? && o.trunk == k && o.why != ToServer then 1 else 0
  }

  /** The event is an answer `c` to a pending attempt on trunk `k`. */
  predicate AnswersAttempt(s: State, e: Event, k: string, c: nat) {
    && e.InviteResponse? && e.status == c && e.orq in s.t.attempts && s.t.attempts[e.orq].trunk == k
    && e.orq in s.t.stack.orqs && s.t.stack.orqs[e.orq].leg != NULL
  }

  /** How many such answers a run holds. */
  function AnswersOn(s: State, es: seq<Event>, k: string, c: nat): nat
    decreases |es|
  {
    if es == [] then 0
    else (if AnswersAttempt(s, es[0], k, c) then 1 else 0) + AnswersOn(Step(s, es[0]), es[1..], k, c)
  }

  // ---- one step ----

  lemma SendCounts(stats: map<string, Counters>, trunk: string, k: string)
    requires NoWrap(stats)
    ensures Of(CountSend(stats, trunk), k).attempts == Of(stats, k).attempts + (if trunk == k then 1 else 0)
    ensures Of(CountSend(stats, trunk), k).fails == Of(stats, k).fails
  {
    assert Of(stats, trunk).attempts + 1 < USIZE;
  }

  /** A failure is counted in the slot of its status on its own trunk. */
  lemma FailureCounts(stats: map<string, Counters>, m: map<Orq, Attempt>, o: Orq, status: nat, k: string, c: nat)
    requires Covered(stats, m) && NoWrap(stats) && o in m && status < 700 && c < 700
    ensures var u := RecordFailure(stats, m[o].trunk, status);
      && |Of(u, k).fails| == |Of(stats, k).fails| == 700 && Of(u, k).attempts == Of(stats, k).attempts
      && Of(u, k).fails[c] == Of(stats, k).fails[c] + (if m[o].trunk == k && status == c && c >= 400 then 1 else 0)
  {
    var t := m[o].trunk;
    assert o in OnTrunk(m, t);
    assert InProgress(m, t) > 0;
    assert t in stats;
    SumBoundsEach(stats[t].fails, status);
    assert stats[t].fails[status] + 1 < USIZE;
  }

  lemma ReactionSends(r: Reaction, status: nat, now: nat, k: string)
    ensures Short(ReactionOutputs(r, status, now), SentOn(k)) ==
      if r.Tried? && (r.v.Redirect? || r.v.Alternate?) && r.v.x.trunk == k then 1 else 0
  {
  }

  lemma NewCallSends(t: Tables, retries: nat, e: Event, k: string)
    requires e.Originate? || e.Terminate?
    ensures Short(Outputs(t, retries, e), SentOn(k)) ==
      if e.Terminate? && e.route.Some? && e.b != NULL && e.orq != NULL && e.route.value.trunk == k then 1 else 0
  {
  }

  lemma OthersSendNone(t: Tables, retries: nat, e: Event, k: string)
    requires !e.Originate? && !e.Terminate? && !e.InviteResponse?
    ensures Short(Outputs(t, retries, e), SentOn(k)) == 0
  {
  }

  lemma AnswerCounts(s: State, e: Event, k: string, c: nat)
    requires Inv(s.t) && EnvOk(s, e) && e.InviteResponse? && Covered(s.stats, s.t.attempts) && NoWrap(s.stats)
    requires c < 700
    ensures var u := StatsAfter(s.stats, s.t, s.retries, e);
      && |Of(u, k).fails| == |Of(s.stats, k).fails| == 700
      && Of(u, k).attempts == Of(s.stats, k).attempts + Short(Outputs(s.t, s.retries, e), SentOn(k))
      && Of(u, k).fails[c] ==
           Of(s.stats, k).fails[c] + (if c >= 400 && AnswersAttempt(s, e, k, c) then 1 else 0)
  {
    ReactionFits(s, e);
    var r := React(s.t, s.retries, e);
    ReactionSends(r, e.status, e.now, k);
    if e.orq in s.t.attempts {
      FailureCounts(s.stats, s.t.attempts, e.orq, e.status, k, c);
      EndCovered(s.stats, s.t.attempts, e.orq, e.status);
    }
    if r.Tried? && (r.v.Redirect? || r.v.Alternate?) {
      SendCounts(RecordFailure(s.stats, r.x.trunk, e.status), r.v.x.trunk, k);
    }
  }

  lemma StepCounts(s: State, e: Event, k: string, c: nat)
    requires Inv(s.t) && EnvOk(s, e) && Covered(s.stats, s.t.attempts) && NoWrap(s.stats) && !e.ResetStats? && c < 700
    ensures var u := Step(s, e).stats;
      && |Of(u, k).fails| == |Of(s.stats, k).fails| == 700
      && Of(u, k).attempts - Of(s.stats, k).attempts == Tally(Step(s, e).log, SentOn(k)) - Tally(s.log, SentOn(k))
      && Of(u, k).fails[c] ==
           Of(s.stats, k).fails[c] + (if c >= 400 && AnswersAttempt(s, e, k, c) then 1 else 0)
  {
    TallyStep(s, e, SentOn(k));
    if e.InviteResponse? {
      AnswerCounts(s, e, k, c);
    } else if e.Originate? || e.Terminate? {
      NewCallSends(s.t, s.retries, e, k);
      if e.Terminate? && e.route.Some? { SendCounts(s.stats, e.route.value.trunk, k); }
    } else {
      OthersSendNone(s.t, s.retries, e, k);
    }
  }

  // ---- runs ----

  lemma {:induction false} RunCounts(s: State, es: seq<Event>, k: string, c: nat)
    requires Inv(s.t) && Covered(s.stats, s.t.attempts) && Legal(s, es) && Counting(s, es) && c < 700
    ensures var u := Exec(s, es);
      && |Of(u.stats, k).fails| == |Of(s.stats, k).fails| == 700
      && Of(u.stats, k).attempts - Of(s.stats, k).attempts == Tally(u.log, SentOn(k)) - Tally(s.log, SentOn(k))
      && Of(u.stats, k).fails[c] == Of(s.stats, k).fails[c] + (if c >= 400 then AnswersOn(s, es, k, c) else 0)
    decreases |es|
  {
    if es == [] {
      assert k in s.stats ==> s.stats[k].Ok();
    } else {
      StepKeepsInv(s, es[0]);
      StepCovered(s, es[0]);
      StepCounts(s, es[0], k, c);
      RunCounts(Step(s, es[0]), es[1..], k, c);
    }
  }

  /** From the empty state, between resets and without wrap, on every trunk: the attempts counted are
      the INVITEs sent on it, and slot `c` holds the number of answers `c` to its attempts, for every
      failure status; no other slot is ever used. */
  lemma CountersAreExact(retries: nat, es: seq<Event>, k: string, c: nat)
    requires Legal(Init(retries), es) && Counting(Init(retries), es) && c < 700
    ensures var u := Exec(Init(retries), es);
      && |Of(u.stats, k).fails| == 700
      && Of(u.stats, k).attempts == Tally(u.log, SentOn(k))
      && Of(u.stats, k).fails[c] == if c >= 400 then AnswersOn(Init(retries), es, k, c) else 0
  {
    var s := Init(retries);
    InitKeepsInv(retries);
    forall j: string ensures InProgress(map[], j) == 0 { assert OnTrunk(map[], j) == {}; }
    SumOfZeroes(ZERO.fails);
    assert Covered(s.stats, s.t.attempts);
    RunCounts(s, es, k, c);
  }
}
