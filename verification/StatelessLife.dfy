/** The life of a stateless call: when it is placed, where its messages go, when a 200 completes it,
    and when it is forgotten. */
module StatelessLife {
  import opened Options
  import opened StatelessLog
  import opened Stateless

  // ---- requests and responses ----

  /** A new call is tracked if and only if it is an INVITE taken by an active proxy with calls left,
      and a server was found and reached; it then belongs to that server. */
  lemma PlacedIff(s: State, e: Event)
    requires Inv(s) && e.Request? && Defined(s, e) && e.id !in s.calls
    ensures var t := Step(s, e);
      var placed := e.kind == Invite && e.active && s.iterations != 0 && e.server.Some? && e.sent;
      && (e.id in t.calls <==> placed)
      && (placed ==> t.log == s.log + [Placed(e.id, e.server.value)] && Owner(t.log, e.id) == e.server)
      && (!placed ==> t.calls == s.calls && t.iterations == s.iterations)
      && t.completed == s.completed
  {
    if e.server.Some? { Snoc(s.log, Placed(e.id, e.server.value), e.id); }
  }

  /** What an untracked request gets instead: OPTIONS a 200 from an active proxy, an INVITE 486 when
      there is no server, and otherwise nothing. */
  lemma Refused(s: State, e: Event)
    requires e.Request? && Defined(s, e) && e.id !in s.calls
    ensures var t := Step(s, e);
      && (t.log == s.log + [Replied(e.id, 200)] <==> e.kind == Method.Options && e.active)
      && (t.log == s.log + [Replied(e.id, 486)] <==>
            e.kind == Invite && e.active && s.iterations != 0 && e.server == None)
      && (t.log == s.log + [Discarded(e.id)] <==>
            || e.kind == Other || (e.kind == Method.Options && !e.active)
            || (e.kind == Invite && (!e.active || s.iterations == 0)))
  {
    var t := Step(s, e);
    if |t.log| == |s.log| + 1 { LastOf(s.log, t.log[|s.log|]); }
    LastOf(s.log, Replied(e.id, 200));
    LastOf(s.log, Replied(e.id, 486));
    LastOf(s.log, Discarded(e.id));
  }

  lemma LastOf(log: seq<Entry>, e: Entry)
    ensures (log + [e])[|log|] == e && |log + [e]| == |log| + 1
  {
  }

  /** Every request of a tracked call goes to its own server and starts its hold time again. */
  lemma TrackedForwarded(s: State, e: Event)
    requires Inv(s) && e.Request? && e.id in s.calls
    ensures var t := Step(s, e);
      && Owner(s.log, e.id).Some? && t.log == s.log + [Forwarded(e.id, Owner(s.log, e.id).value, e.now)]
      && LastHeard(t.log, e.id) == e.now && t.completed == s.completed
  {
    assert CallOk(s, e.id);
    Snoc(s.log, Forwarded(e.id, s.calls[e.id].dest, e.now), e.id);
  }

  /** Every response is passed back, and the status of one to a tracked INVITE kept. */
  lemma ResponsePassedBack(s: State, e: Event)
    requires e.Response?
    ensures var t := Step(s, e);
      && t.log != [] && t.log[|t.log| - 1] == Returned(e.id)
      && (e.id in s.calls && e.toInvite ==> e.id in t.calls && t.calls[e.id].status == e.status)
  {
  }

  // ---- completion ----

  /** A 200 to its INVITE completes a call; the first one queues it last and starts its hold time. */
  lemma AnswerCompletes(s: State, e: Event, id: string)
    requires Inv(s) && id in s.calls && AnswersCall(e, id)
    ensures var t := Step(s, e);
      && id in t.calls && Done(t.log, id)
      && (if Done(s.log, id) then t.completed == s.completed && LastHeard(t.log, id) == LastHeard(s.log, id)
          else t.completed == s.completed + [id] && LastHeard(t.log, id) == e.now)
  {
    assert CallOk(s, id);
    Snoc(s.log, Answered(id, e.now), id);
    Snoc(s.log, Returned(id), id);
    Snoc(s.log + [Answered(id, e.now)], Returned(id), id);
  }

  /** No other response completes anything. */
  lemma OthersCompleteNone(s: State, e: Event)
    requires Inv(s) && !e.Watchdog? && Defined(s, e)
    requires !(e.Response? && e.id in s.calls && AnswersCall(e, e.id))
    ensures Step(s, e).completed == s.completed
  {
  }

  // ---- forgetting ----

  lemma {:induction false} OverReaches(calls: map<string, Call>, q: seq<string>, now: nat, k: nat)
    requires k < |q| && forall i :: 0 <= i <= k ==> q[i] in calls && calls[q[i]].expire <= now
    ensures Over(calls, q, now) > k
  {
    if k > 0 {
      forall i | 0 <= i <= k - 1 ensures q[1..][i] in calls && calls[q[1..][i]].expire <= now {
        assert q[1..][i] == q[i + 1];
      }
      OverReaches(calls, q[1..], now, k - 1);
    }
    assert q[0] in calls && calls[q[0]].expire <= now;
  }

  /** All calls of the queue up to place `k` have been silent for eight seconds. */
  ghost predicate Silent(s: State, k: nat, now: nat) {
    k < |s.completed| && forall i :: 0 <= i <= k ==> LastHeard(s.log, s.completed[i]) + 8 <= now
  }

  /** Then the watchdog forgets them. */
  lemma WatchdogForgets(s: State, now: nat, k: nat)
    requires Inv(s) && Silent(s, k, now)
    ensures s.completed[k] !in Step(s, Watchdog(now)).calls
  {
    forall i | 0 <= i <= k ensures s.completed[i] in s.calls && s.calls[s.completed[i]].expire <= now {
      assert s.completed[i] in s.completed;
      assert CallOk(s, s.completed[i]);
    }
    OverReaches(s.calls, s.completed, now, k);
    ExpireExact(s, now, s.completed[k]);
    assert s.completed[k] == s.completed[..Over(s.calls, s.completed, now)][k];
  }

  /** Until a watchdog comes, whatever is queued stays in its place. */
  lemma {:induction false} StaysQueued(s: State, es: seq<Event>)
    requires Inv(s) && Legal(s, es) && forall i :: 0 <= i < |es| ==> !es[i].Watchdog?
    ensures |s.completed| <= |Exec(s, es).completed| && Exec(s, es).completed[..|s.completed|] == s.completed
    decreases es
  {
    if es != [] {
      var t := Step(s, es[0]);
      StepKeepsInv(s, es[0]);
      QueueGrows(s, es[0]);
      StaysQueued(t, es[1..]);
      assert Exec(t, es[1..]).completed[..|s.completed|] == t.completed[..|s.completed|];
    }
  }

  lemma QueueGrows(s: State, e: Event)
    requires Defined(s, e) && !e.Watchdog?
    ensures |s.completed| <= |Step(s, e).completed| && Step(s, e).completed[..|s.completed|] == s.completed
  {
  }

  /** In every run: once a tracked call's INVITE has been answered 200 it is in the queue, and the next
      watchdog that finds it and all calls ahead of it silent for eight seconds forgets it. */
  lemma ForgottenInTime(iterations: int, es: seq<Event>, e: Event, rest: seq<Event>, now: nat, id: string)
    requires Legal(Init(iterations), es) && id in Exec(Init(iterations), es).calls && AnswersCall(e, id)
    requires Legal(Step(Exec(Init(iterations), es), e), rest)
    requires forall i :: 0 <= i < |rest| ==> !rest[i].Watchdog?
    ensures var s := Exec(Step(Exec(Init(iterations), es), e), rest);
      && id in s.completed
      && forall k: nat :: Silent(s, k, now) && s.completed[k] == id ==> id !in Step(s, Watchdog(now)).calls
  {
    var s0 := Exec(Init(iterations), es);
    RunKeepsInv(iterations, es);
    var s1 := Step(s0, e);
    StepKeepsInv(s0, e);
    AnswerCompletes(s0, e, id);
    assert CallOk(s1, id);
    assert id in s1.completed;
    StaysQueued(s1, rest);
    ExecKeepsInv(s1, rest);
    var s := Exec(s1, rest);
    var j :| 0 <= j < |s1.completed| && s1.completed[j] == id;
    assert s.completed[..|s1.completed|][j] == s.completed[j];
    forall k: nat | Silent(s, k, now) && s.completed[k] == id ensures id !in Step(s, Watchdog(now)).calls {
      WatchdogForgets(s, now, k);
    }
  }
}
