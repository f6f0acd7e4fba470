/** The stateless proxy: which server each call went to, which calls are complete, and when
    complete calls are forgotten. */
module Stateless {
  import opened Options
  import opened StatelessLog

  datatype Call = Call(dest: string, status: nat, complete: bool, expire: nat)

  /** `iterations`: calls still to take, negative for no limit. */
  datatype State = State(calls: map<string, Call>, completed: seq<string>, iterations: int, log: seq<Entry>)

  datatype Method = Invite | Options | Ack | Other

  /** `server`: where a new call would be sent. `sent`: the stack took the message. */
  datatype Event =
    | Request(id: string, kind: Method, active: bool, server: Option<string>, sent: bool, now: nat)
    | Response(id: string, toInvite: bool, status: nat, now: nat)
    | Watchdog(now: nat)

  function Init(iterations: int): State { State(map[], [], iterations, []) }

  function Heard(c: Call, now: nat): Call { c.(expire := now + MAX_RETRANSMISSION_WAIT) }

  function Note(s: State, e: Entry): State { s.(log := s.log + [e]) }

  /** An ACK for an unknown call reads through the end of the map; all else is defined. */
  predicate Defined(s: State, e: Event) {
    !(e.Request? && e.kind == Ack && e.id !in s.calls)
  }

  function OnRequest(s: State, e: Event): State
    requires e.Request? && Defined(s, e)
  {
    if e.id in s.calls then
      Note(s.(calls := s.calls[e.id := Heard(s.calls[e.id], e.now)]), Forwarded(e.id, s.calls[e.id].dest, e.now))
    else match e.kind
      case Options => Note(s, if e.active then Replied(e.id, 200) else Discarded(e.id))
      case Invite =>
        if !e.active || s.iterations == 0 then Note(s, Discarded(e.id))
        else if e.server == None then Note(s, Replied(e.id, 486))
        else if !e.sent then s
        else
          Note(s.(calls := s.calls[e.id := Call(e.server.value, 0, false, 0)],
                  iterations := if s.iterations > 0 then s.iterations - 1 else s.iterations),
               Placed(e.id, e.server.value))
      case Other => Note(s, Discarded(e.id))
      case Ack => s
  }

  function Complete(s: State, id: string, now: nat): State
    requires id in s.calls
  {
    if s.calls[id].complete then s
    else Note(s.(calls := s.calls[id := Heard(s.calls[id], now).(complete := true)], completed := s.completed + [id]),
              Answered(id, now))
  }

  function OnResponse(s: State, e: Event): State
    requires e.Response?
  {
    if e.id in s.calls && e.toInvite then
      var t := s.(calls := s.calls[e.id := s.calls[e.id].(status := e.status)]);
      Note(if e.status == 200 then Complete(t, e.id, e.now) else t, Returned(e.id))
    else Note(s, Returned(e.id))
  }

  /** Forgets complete calls from the front of the queue, up to the first still on hold. */
  function Expire(s: State, now: nat): State
    decreases |s.completed|
  {
    if s.completed == [] || s.completed[0] !in s.calls || now < s.calls[s.completed[0]].expire then s
    else Expire(DropFirst(s, now), now)
  }

  function DropFirst(s: State, now: nat): State
    requires s.completed != []
  {
    var id := s.completed[0];
    Note(s.(calls := s.calls - {id}, completed := s.completed[1..]), Dropped(id, now))
  }

  function Step(s: State, e: Event): State
    requires Defined(s, e)
  {
    match e
    case Request(_, _, _, _, _, _) => OnRequest(s, e)
    case Response(_, _, _, _) => OnResponse(s, e)
    case Watchdog(now) => Expire(s, now)
  }

  // ---- what every run keeps ----

  ghost predicate NoDuplicates(q: seq<string>) {
    forall i, j :: 0 <= i < j < |q| ==> q[i] != q[j]
  }

  /** The queue lists each complete call once and nothing else. */
  ghost predicate QueueOk(s: State) {
    && NoDuplicates(s.completed)
    && forall id :: id in s.completed <==> id in s.calls && s.calls[id].complete
  }

  /** The tables say what the record says. */
  ghost predicate LogOk(s: State) {
    && Proper(s.log)
    && forall id :: CallOk(s, id)
  }

  predicate CallOk(s: State, id: string) {
    if id !in s.calls then Owner(s.log, id) == None
    else
      && Owner(s.log, id) == Some(s.calls[id].dest)
      && s.calls[id].complete == Done(s.log, id)
      && (s.calls[id].complete ==> s.calls[id].expire == LastHeard(s.log, id) + MAX_RETRANSMISSION_WAIT)
  }

  ghost predicate Inv(s: State) { QueueOk(s) && LogOk(s) }

  /** Adding an entry that the tables bear out. */
  lemma NoteKeepsLog(s: State, t: State, e: Entry)
    requires LogOk(s) && Allowed(s.log, e) && t.log == s.log + [e]
    requires forall id :: (id in t.calls <==> id in s.calls) || id == e.id
    requires forall id :: id != e.id && id in s.calls && id in t.calls ==> t.calls[id] == s.calls[id]
    requires CallOk(t, e.id)
    ensures LogOk(t)
  {
    ProperSnoc(s.log, e);
    forall id ensures CallOk(t, id) {
      assert CallOk(s, id);
      Snoc(s.log, e, id);
    }
  }

  lemma RequestKeepsInv(s: State, e: Event)
    requires Inv(s) && e.Request? && Defined(s, e)
    ensures Inv(OnRequest(s, e))
  {
    if e.id in s.calls {
      ForwardKeepsInv(s, e.id, e.now);
    } else if e.kind == Invite && e.active && s.iterations != 0 && e.server.Some? {
      if e.sent { PlaceKeepsInv(s, e.id, e.server.value, OnRequest(s, e).iterations); }
    } else if e.kind != Ack {
      RemarkKeepsInv(s, OnRequest(s, e).log[|s.log|]);
    }
  }

  lemma ForwardKeepsInv(s: State, id: string, now: nat)
    requires Inv(s) && id in s.calls
    ensures Inv(Note(s.(calls := s.calls[id := Heard(s.calls[id], now)]), Forwarded(id, s.calls[id].dest, now)))
  {
    var e := Forwarded(id, s.calls[id].dest, now);
    var t := Note(s.(calls := s.calls[id := Heard(s.calls[id], now)]), e);
    assert CallOk(s, id);
    Snoc(s.log, e, id);
    NoteKeepsLog(s, t, e);
  }

  lemma PlaceKeepsInv(s: State, id: string, dest: string, iterations: int)
    requires Inv(s) && id !in s.calls
    ensures Inv(Note(s.(calls := s.calls[id := Call(dest, 0, false, 0)], iterations := iterations), Placed(id, dest)))
  {
    var t := Note(s.(calls := s.calls[id := Call(dest, 0, false, 0)], iterations := iterations), Placed(id, dest));
    assert CallOk(s, id);
    Snoc(s.log, Placed(id, dest), id);
    NoteKeepsLog(s, t, Placed(id, dest));
  }

  /** Replies, discarded messages and returned responses change nothing else. */
  lemma RemarkKeepsInv(s: State, e: Entry)
    requires Inv(s) && (e.Replied? || e.Discarded? || e.Returned?)
    ensures Inv(Note(s, e))
  {
    assert CallOk(s, e.id);
    Snoc(s.log, e, e.id);
    NoteKeepsLog(s, Note(s, e), e);
  }

  lemma CompleteKeepsInv(s: State, id: string, now: nat)
    requires Inv(s) && id in s.calls
    ensures Inv(Complete(s, id, now))
  {
    assert CallOk(s, id);
    if !s.calls[id].complete {
      var t := Complete(s, id, now);
      Snoc(s.log, Answered(id, now), id);
      NoteKeepsLog(s, t, Answered(id, now));
      CompleteKeepsQueue(s, id, now);
    }
  }

  lemma CompleteKeepsQueue(s: State, id: string, now: nat)
    requires QueueOk(s) && id in s.calls && !s.calls[id].complete
    ensures QueueOk(Complete(s, id, now))
  {
    assert id !in s.completed;
  }

  lemma ResponseKeepsInv(s: State, e: Event)
    requires Inv(s) && e.Response?
    ensures Inv(OnResponse(s, e))
  {
    var t := s;
    if e.id in s.calls && e.toInvite {
      t := s.(calls := s.calls[e.id := s.calls[e.id].(status := e.status)]);
      forall id ensures CallOk(t, id) { assert CallOk(s, id); }
      assert QueueOk(t);
      if e.status == 200 {
        CompleteKeepsInv(t, e.id, e.now);
        t := Complete(t, e.id, e.now);
      }
    }
    RemarkKeepsInv(t, Returned(e.id));
  }

  lemma DropKeepsInv(s: State, now: nat)
    requires Inv(s) && s.completed != [] && now >= s.calls[s.completed[0]].expire
    ensures Inv(DropFirst(s, now))
  {
    var id, t := s.completed[0], DropFirst(s, now);
    assert id in s.completed;
    assert CallOk(s, id);
    Snoc(s.log, Dropped(id, now), id);
    NoteKeepsLog(s, t, Dropped(id, now));
    assert s.completed == [id] + t.completed;
  }

  lemma {:induction false} ExpireKeepsInv(s: State, now: nat)
    requires Inv(s)
    ensures Inv(Expire(s, now))
    decreases |s.completed|
  {
    if s.completed != [] {
      assert s.completed[0] in s.completed;
      if now >= s.calls[s.completed[0]].expire {
        DropKeepsInv(s, now);
        ExpireKeepsInv(DropFirst(s, now), now);
      }
    }
  }

  /** The longest run of calls at the front of queue `q` whose hold time is over. */
  function Over(calls: map<string, Call>, q: seq<string>, now: nat): (k: nat)
    ensures k <= |q|
    ensures forall i :: 0 <= i < k ==> q[i] in calls && calls[q[i]].expire <= now
    ensures k < |q| ==> q[k] !in calls || now < calls[q[k]].expire
  {
    if q == [] || q[0] !in calls || now < calls[q[0]].expire then 0 else 1 + Over(calls, q[1..], now)
  }

  lemma {:induction false} OverFrame(calls: map<string, Call>, q: seq<string>, now: nat, id: string)
    requires id !in q
    ensures Over(calls - {id}, q, now) == Over(calls, q, now)
  {
    if q != [] { OverFrame(calls, q[1..], now, id); }
  }

  lemma DropKeepsQueue(s: State, now: nat)
    requires QueueOk(s) && s.completed != []
    ensures QueueOk(DropFirst(s, now))
  {
    assert s.completed == [s.completed[0]] + s.completed[1..];
  }

  /** One step of the watchdog, seen from the rest of the queue. */
  lemma ExpireStep(s: State, now: nat)
    requires QueueOk(s) && s.completed != []
    ensures var first := s.completed[0];
      && first in s.calls
      && (now < s.calls[first].expire ==> Expire(s, now) == s && Over(s.calls, s.completed, now) == 0)
      && (now >= s.calls[first].expire ==>
            var t := DropFirst(s, now);
            && Expire(s, now) == Expire(t, now) && QueueOk(t)
            && Over(s.calls, s.completed, now) == 1 + Over(t.calls, t.completed, now))
  {
    var first, rest := s.completed[0], s.completed[1..];
    assert first in s.completed && s.completed == [first] + rest;
    OverFrame(s.calls, rest, now, first);
    DropKeepsQueue(s, now);
  }

  lemma {:induction false} ExpireQueue(s: State, now: nat)
    requires QueueOk(s)
    ensures Expire(s, now).completed == s.completed[Over(s.calls, s.completed, now)..]
    decreases |s.completed|
  {
    if s.completed != [] {
      ExpireStep(s, now);
      if now >= s.calls[s.completed[0]].expire { ExpireQueue(DropFirst(s, now), now); }
    }
  }

  /** Exactly the longest run of expired calls at the front of the queue goes; every other call
      stays as it is, complete or not. */
  lemma {:induction false} ExpireExact(s: State, now: nat, id: string)
    requires QueueOk(s)
    ensures var k, t := Over(s.calls, s.completed, now), Expire(s, now);
      && t.completed == s.completed[k..]
      && (id in t.calls <==> id in s.calls && id !in s.completed[..k])
      && (id in t.calls ==> t.calls[id] == s.calls[id])
    decreases |s.completed|
  {
    ExpireQueue(s, now);
    if s.completed != [] {
      ExpireStep(s, now);
      if now >= s.calls[s.completed[0]].expire {
        var t := DropFirst(s, now);
        ExpireExact(t, now, id);
        PrefixHolds(s.completed, 1 + Over(t.calls, t.completed, now), id);
      }
    }
  }

  lemma PrefixHolds(q: seq<string>, k: nat, id: string)
    requires 0 < k <= |q|
    ensures id in q[..k] <==> id == q[0] || id in q[1..][..k - 1]
  {
    assert q[..k] == [q[0]] + q[1..][..k - 1];
  }

  // ---- runs ----

  function Exec(s: State, es: seq<Event>): State
    requires Legal(s, es)
    decreases es
  {
    if es == [] then s else Exec(Step(s, es[0]), es[1..])
  }

  /** No ACK arrives for a call the proxy does not know. */
  predicate Legal(s: State, es: seq<Event>)
    decreases es
  {
    es == [] || (Defined(s, es[0]) && Legal(Step(s, es[0]), es[1..]))
  }

  lemma StepKeepsInv(s: State, e: Event)
    requires Inv(s) && Defined(s, e)
    ensures Inv(Step(s, e))
  {
    match e
    case Request(_, _, _, _, _, _) => RequestKeepsInv(s, e);
    case Response(_, _, _, _) => ResponseKeepsInv(s, e);
    case Watchdog(now) => ExpireKeepsInv(s, now);
  }

  lemma {:induction false} ExecKeepsInv(s: State, es: seq<Event>)
    requires Inv(s) && Legal(s, es)
    ensures Inv(Exec(s, es))
    decreases es
  {
    if es != [] {
      StepKeepsInv(s, es[0]);
      ExecKeepsInv(Step(s, es[0]), es[1..]);
    }
  }

  /** In every run the queue lists exactly the complete calls, once each, and the record is proper:
      each call is placed once, every further request goes where its first INVITE went, and it is
      forgotten only after a 200 and eight seconds without a request. */
  lemma RunKeepsInv(iterations: int, es: seq<Event>)
    requires Legal(Init(iterations), es)
    ensures Inv(Exec(Init(iterations), es))
  {
    ExecKeepsInv(Init(iterations), es);
  }

  predicate AnswersCall(e: Event, id: string) { e.Response? && e.id == id && e.toInvite && e.status == 200 }

  /** Nothing but a 200 to its INVITE lets go of a call: one that is refused, cancelled or
      acknowledged otherwise stays for ever. */
  lemma {:induction false} RunKeepsUnanswered(s: State, es: seq<Event>, id: string)
    requires Inv(s) && Legal(s, es) && id in s.calls && !s.calls[id].complete
    requires forall i :: 0 <= i < |es| ==> !AnswersCall(es[i], id)
    ensures var t := Exec(s, es); id in t.calls && !t.calls[id].complete && t.calls[id].dest == s.calls[id].dest
    decreases es
  {
    if es != [] {
      StepKeepsInv(s, es[0]);
      assert !AnswersCall(es[0], id);
      if es[0].Watchdog? { ExpireExact(s, es[0].now, id); }
      RunKeepsUnanswered(Step(s, es[0]), es[1..], id);
    }
  }

  /** A limit on the number of calls is kept exactly. */
  lemma {:induction false} RunKeepsLimit(s: State, es: seq<Event>)
    requires Legal(s, es) && s.iterations >= 0
    ensures var t := Exec(s, es);
      t.iterations >= 0 && CallsPlaced(t.log) + t.iterations == CallsPlaced(s.log) + s.iterations
    decreases es
  {
    if es != [] {
      StepKeepsLimit(s, es[0]);
      RunKeepsLimit(Step(s, es[0]), es[1..]);
    }
  }

  lemma StepKeepsLimit(s: State, e: Event)
    requires Defined(s, e) && s.iterations >= 0
    ensures var t := Step(s, e);
      t.iterations >= 0 && CallsPlaced(t.log) + t.iterations == CallsPlaced(s.log) + s.iterations
  {
    if e.Watchdog? {
      ExpireKeepsLimit(s, e.now);
    } else if e.Request? {
      var t := OnRequest(s, e);
      if t != s { PlacedSnoc(s.log, t.log[|s.log|]); }
    } else {
      PlacedSnoc(s.log, Returned(e.id));
      PlacedSnoc(s.log, Answered(e.id, e.now));
      PlacedSnoc(s.log + [Answered(e.id, e.now)], Returned(e.id));
    }
  }

  lemma {:induction false} ExpireKeepsLimit(s: State, now: nat)
    ensures var t := Expire(s, now); t.iterations == s.iterations && CallsPlaced(t.log) == CallsPlaced(s.log)
    decreases |s.completed|
  {
    if s.completed != [] {
      PlacedSnoc(s.log, Dropped(s.completed[0], now));
      ExpireKeepsLimit(DropFirst(s, now), now);
    }
  }

  lemma PlacedSnoc(log: seq<Entry>, e: Entry)
    ensures CallsPlaced(log + [e]) == CallsPlaced(log) + if e.Placed? then 1 else 0
  {
    assert (log + [e])[..|log|] == log;
  }

  // ---- the controller's own tables ----

  class StatelessController {
    var invitesInProgress: map<string, Call>
    var completedCallIds: seq<string>
    var iterationCount: int
    ghost var log: seq<Entry>

    ghost function S(): State
      reads this
    {
      State(invitesInProgress, completedCallIds, iterationCount, log)
    }

    constructor (iterations: int)
      ensures S() == Init(iterations) && Inv(S())
    {
      invitesInProgress, completedCallIds, iterationCount, log := map[], [], iterations, [];
    }

    method SetCompleted(id: string, now: nat)
      requires id in invitesInProgress
      modifies this
      ensures S() == Complete(old(S()), id, now)
    {
      var c := invitesInProgress[id];
      if c.complete { return; }
      invitesInProgress := invitesInProgress[id := c.(complete := true, expire := now + MAX_RETRANSMISSION_WAIT)];
      completedCallIds := completedCallIds + [id];
      log := log + [Answered(id, now)];
    }

    /** `dest`: where the message went, if it was sent on. */
    method ProcessRequest(e: Event) returns (dest: Option<string>, code: nat)
      requires e.Request? && Inv(S()) && Defined(S(), e)
      modifies this
      ensures S() == OnRequest(old(S()), e) && Inv(S())
      ensures e.id in old(invitesInProgress) ==>
        dest == Owner(old(log), e.id) == Some(old(invitesInProgress)[e.id].dest)
      ensures e.id !in old(invitesInProgress) ==> (dest.Some? <==> e.id in invitesInProgress)
      ensures code == 486 <==>
        e.id !in old(invitesInProgress) && e.kind == Invite && e.active && iterationCount != 0 && e.server == None
    {
      assert CallOk(S(), e.id);
      RequestKeepsInv(S(), e);
      dest, code := None, 0;
      if e.id in invitesInProgress {
        var c := invitesInProgress[e.id];
        invitesInProgress := invitesInProgress[e.id := c.(expire := e.now + MAX_RETRANSMISSION_WAIT)];
        dest := Some(c.dest);
        log := log + [Forwarded(e.id, c.dest, e.now)];
        return;
      }
      match e.kind {
        case Options =>
          code := if e.active then 200 else 0;
          log := log + [if e.active then Replied(e.id, 200) else Discarded(e.id)];
        case Invite =>
          if !e.active || iterationCount == 0 {
            log := log + [Discarded(e.id)];
          } else if e.server == None {
            code := 486;
            log := log + [Replied(e.id, 486)];
          } else if e.sent {
            dest := e.server;
            invitesInProgress := invitesInProgress[e.id := Call(e.server.value, 0, false, 0)];
            if iterationCount > 0 { iterationCount := iterationCount - 1; }
            log := log + [Placed(e.id, e.server.value)];
          }
        case Other =>
          log := log + [Discarded(e.id)];
        case Ack =>
          assert false;
      }
    }

    method ProcessResponse(e: Event)
      requires e.Response? && Inv(S())
      modifies this
      ensures S() == OnResponse(old(S()), e) && Inv(S())
    {
      ResponseKeepsInv(S(), e);
      if e.id in invitesInProgress && e.toInvite {
        invitesInProgress := invitesInProgress[e.id := invitesInProgress[e.id].(status := e.status)];
        if e.status == 200 { SetCompleted(e.id, e.now); }
      }
      log := log + [Returned(e.id)];
    }

    /** Every listed call is found in the map. */
    method ProcessWatchdogTimer(now: nat)
      requires Inv(S())
      modifies this
      ensures S() == Expire(old(S()), now) && Inv(S())
    {
      while completedCallIds != []
        invariant Inv(S()) && Expire(S(), now) == Expire(old(S()), now)
        decreases |completedCallIds|
      {
        var id := completedCallIds[0];
        assert id in completedCallIds;
        assert id in invitesInProgress;
        if now < invitesInProgress[id].expire { break; }
        DropKeepsInv(S(), now);
        invitesInProgress := invitesInProgress - {id};
        completedCallIds := completedCallIds[1..];
        log := log + [Dropped(id, now)];
      }
    }
  }
}
