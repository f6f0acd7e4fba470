/** Trunk counters against the attempts in progress, over whole runs. */
module CallTrunks {
  import opened CallTables
  import opened CallSteps
  import opened CallRuns
  import opened CallAccounting
  import opened TrunkStats

  function Of(stats: map<string, Counters>, k: string): Counters { if k in stats then stats[k] else ZERO }

  function OnTrunk(m: map<Orq, Attempt>, k: string): set<Orq> { set o | o in m && m[o].trunk == k }

  function InProgress(m: map<Orq, Attempt>, k: string): nat { |OnTrunk(m, k)| }

  /** On every trunk the attempts counted cover the failures counted plus the attempts in progress. */
  ghost predicate Covered(stats: map<string, Counters>, m: map<Orq, Attempt>) {
    && (forall k :: k in stats ==> stats[k].Ok())
    && (forall k: string :: Sum(Of(stats, k).fails) + InProgress(m, k) <= Of(stats, k).attempts)
  }

  ghost predicate NoWrap(stats: map<string, Counters>) {
    forall k: string :: Of(stats, k).attempts + 1 < USIZE
  }

  lemma Removed(m: map<Orq, Attempt>, o: Orq, k: string)
    requires o in m
    ensures InProgress(m - {o}, k) == InProgress(m, k) - (if m[o].trunk == k then 1 else 0)
  {
    assert OnTrunk(m - {o}, k) == OnTrunk(m, k) - {o};
    assert o in OnTrunk(m, k) <==> m[o].trunk == k;
  }

  lemma Inserted(m: map<Orq, Attempt>, o: Orq, x: Attempt, k: string)
    requires o !in m
    ensures InProgress(m[o := x], k) == InProgress(m, k) + (if x.trunk == k then 1 else 0)
  {
    assert OnTrunk(m[o := x], k) == if x.trunk == k then OnTrunk(m, k) + {o} else OnTrunk(m, k);
    assert o !in OnTrunk(m, k);
  }

  lemma SendCovered(stats: map<string, Counters>, m: map<Orq, Attempt>, o: Orq, x: Attempt)
    requires Covered(stats, m) && NoWrap(stats) && o !in m
    ensures Covered(CountSend(stats, x.trunk), m[o := x])
  {
    var u := CountSend(stats, x.trunk);
    forall k: string ensures Sum(Of(u, k).fails) + InProgress(m[o := x], k) <= Of(u, k).attempts {
      Inserted(m, o, x, k);
    }
  }

  /** Ending an attempt, counting a failure on its trunk or not. */
  lemma EndCovered(stats: map<string, Counters>, m: map<Orq, Attempt>, o: Orq, status: nat)
    requires Covered(stats, m) && NoWrap(stats) && o in m && status < SLOTS
    ensures Covered(RecordFailure(stats, m[o].trunk, status), m - {o})
    ensures NoWrap(RecordFailure(stats, m[o].trunk, status))
  {
    var k0 := m[o].trunk;
    var u := RecordFailure(stats, k0, status);
    if u != stats {
      assert Of(stats, k0) == stats[k0];
      FailureAddsOne(stats[k0], status);
    }
    forall k: string ensures Of(u, k).attempts == Of(stats, k).attempts {}
    forall k: string ensures Sum(Of(u, k).fails) + InProgress(m - {o}, k) <= Of(u, k).attempts {
      Removed(m, o, k);
    }
  }

  lemma DropCovered(stats: map<string, Counters>, m: map<Orq, Attempt>, o: Orq)
    requires Covered(stats, m) && o in m
    ensures Covered(stats, m - {o})
  {
    forall k: string ensures Sum(Of(stats, k).fails) + InProgress(m - {o}, k) <= Of(stats, k).attempts {
      Removed(m, o, k);
    }
  }

  lemma ReactionCovered(stats: map<string, Counters>, t: Tables, retries: nat, e: Event, r: Reaction)
    requires Covered(stats, t.attempts) && NoWrap(stats) && e.InviteResponse? && e.status < SLOTS
    requires r == React(t, retries, e) && AttemptsFollow(t, r, e) && (r.Tried? ==> r.x == t.attempts[e.orq])
    ensures Covered(StatsAfter(stats, t, retries, e), AfterReaction(t, r, e).t.attempts)
  {
    if r.Tried? {
      EndCovered(stats, t.attempts, e.orq, e.status);
      if r.v.Redirect? || r.v.Alternate? {
        SendCovered(RecordFailure(stats, r.x.trunk, e.status), t.attempts - {e.orq}, e.newOrq, r.v.x);
      }
    }
  }

  /** A run in which the counters are neither reset nor about to wrap. */
  ghost predicate Counting(s: State, es: seq<Event>)
    decreases |es|
  {
    es == [] || (!es[0].ResetStats? && NoWrap(s.stats) && Counting(Step(s, es[0]), es[1..]))
  }

  lemma TerminateCovered(stats: map<string, Counters>, t: Tables, retries: nat, e: Event)
    requires Covered(stats, t.attempts) && NoWrap(stats) && e.Terminate? && e.orq !in t.attempts
    ensures Covered(StatsAfter(stats, t, retries, e), TablesAfter(t, retries, e).t.attempts)
  {
    if e.route.Some? && e.b != NULL && e.orq != NULL {
      SendCovered(stats, t.attempts, e.orq, NewAttempt(e.route.value, e.uuid, e.url, e.now));
    }
  }

  lemma CancelCovered(stats: map<string, Counters>, t: Tables, irq: Irq)
    requires Covered(stats, t.attempts) && irq in t.txns.left
    ensures Covered(stats, AfterCancel(t, irq).t.attempts)
  {
    CancelAttempts(t, irq);
    if t.txns.left[irq] in t.attempts {
      DropCovered(stats, t.attempts, t.txns.left[irq]);
    } else {
      assert t.attempts - {t.txns.left[irq]} == t.attempts;
    }
  }

  lemma OthersKeepAttempts(t: Tables, retries: nat, e: Event)
    requires !e.Terminate? && !e.Cancel? && !e.InviteResponse?
    ensures TablesAfter(t, retries, e).t.attempts == t.attempts
  {
  }

  lemma StepCovered(s: State, e: Event)
    requires Inv(s.t) && EnvOk(s, e) && Covered(s.stats, s.t.attempts) && NoWrap(s.stats) && !e.ResetStats?
    ensures Covered(Step(s, e).stats, Step(s, e).t.attempts)
  {
    if e.InviteResponse? {
      ReactionFits(s, e);
      StepAttempts(s, e);
      ReactionCovered(s.stats, s.t, s.retries, e, React(s.t, s.retries, e));
    } else if e.Terminate? {
      TerminateCovered(s.stats, s.t, s.retries, e);
    } else if e.Cancel? {
      CancelFits(s, e);
      CancelCovered(s.stats, s.t, e.irq);
    } else {
      OthersKeepAttempts(s.t, s.retries, e);
    }
  }

  /** In every such run each trunk's attempts cover its failures and its attempts in progress. */
  lemma {:induction false} RunCovered(s: State, es: seq<Event>)
    requires Inv(s.t) && Covered(s.stats, s.t.attempts) && Legal(s, es) && Counting(s, es)
    ensures Covered(Exec(s, es).stats, Exec(s, es).t.attempts)
    decreases |es|
  {
    if es != [] {
      StepKeepsInv(s, es[0]);
      StepCovered(s, es[0]);
      RunCovered(Step(s, es[0]), es[1..]);
    }
  }

  /** Resetting the counters while an attempt is in progress breaks the law on its trunk, and only then. */
  lemma ResetCoveredIff(s: State)
    ensures Covered(Step(s, ResetStats).stats, s.t.attempts) <==> s.t.attempts == map[]
  {
    var u := Step(s, ResetStats).stats;
    if s.t.attempts != map[] {
      var o :| o in s.t.attempts;
      var k := s.t.attempts[o].trunk;
      assert o in OnTrunk(s.t.attempts, k);
      assert Of(u, k) == ZERO;
      assert Sum(Of(u, k).fails) + InProgress(s.t.attempts, k) > Of(u, k).attempts;
    } else {
      forall k: string ensures InProgress(s.t.attempts, k) == 0 {
        assert OnTrunk(s.t.attempts, k) == {};
      }
    }
  }
}
