/** What each callback of the SIP stack does to the controller, as a function from state to state. */
module CallSteps {
  import opened Bimaps
  import opened Options
  import opened CallTables
  import opened TrunkStats

  datatype Why = ToServer | FirstRoute | Redirected | AlternateRoute

  /** What the controller does that others can see, oldest first. `AlternateLost`: an alternate
      route was chosen but its INVITE could not be created. */
  datatype Output =
    | Received(irq: Irq)
    | Replied(irq: Irq, status: nat)
    | InviteSent(irq: Irq, trunk: string, why: Why)
    | AlternateLost(irq: Irq)
    | Posted(cdr: Cdr)

  datatype State = State(
    t: Tables,
    stats: map<string, Counters>,
    log: seq<Output>,
    faults: set<Fault>,     // kinds of fault met so far
    clock: nat,
    uuids: set<string>,     // session ids handed out so far
    retries: nat)           // configured number of termination routes to try

  datatype Route = Route(trunk: string, carrier: string)

  /** Callbacks, with what the stack, the configuration and the clock answer while they are served. */
  datatype Event =
    | Originate(irq: Irq, serverFound: bool, a: Leg, b: Leg, orq: Orq, timerSecs: nat, uuid: string, now: nat)
    | Terminate(irq: Irq, route: Option<Route>, a: Leg, b: Leg, orq: Orq, uuid: string, url: string, now: nat)
    | InviteResponse(orq: Orq, status: nat, url: string, alt: Option<Route>, b: Leg, newOrq: Orq, timerMade: bool,
        now: nat)
    | Cancel(irq: Irq, now: nat)
    | Bye(leg: Leg, irq: Irq, now: nat)
    | Forward(leg: Leg, irq: Irq, orq: Orq)
    | Answer(orq: Orq, status: nat, toInvite: bool)
    | SessionTimer(leg: Leg)
    | ResetStats

  function Init(retries: nat): State {
    var t := Tables(Bimap(map[], map[]), Bimap(map[], map[]), map[], map[], Stack(map[], map[], {}));
    State(t, map[], [], {}, 1, {}, retries)
  }

  function LegOf(t: Tables, orq: Orq): Leg {
    if orq in t.stack.orqs then t.stack.orqs[orq].leg else NULL
  }

  function ALegOf(t: Tables, irq: Irq): Leg {
    if irq in t.stack.irqs then t.stack.irqs[irq].leg else NULL
  }

  // ---- call detail records ----

  function NewOriginationCdr(uuid: string, now: nat): Cdr {
    Cdr(OriginationRequest, uuid, 0, now, 0, 0, NoCause, "", "")
  }

  function FinalCdr(c: Cdr, kind: CdrKind, status: nat, now: nat): Cdr {
    if status == 200 then c.(kind := kind, status := status, connect := now)
    else c.(kind := kind, status := status, end := now, cause := TerminationCarriers)
  }

  function CancelCdr(c: Cdr, now: nat): Cdr { c.(kind := OriginationCancel, end := now, cause := Canceled) }

  function ByeCdr(c: Cdr, byCaller: bool, now: nat): Cdr {
    c.(kind := CallCleared, cause := if byCaller then CallingPartyRelease else CalledPartyRelease, end := now)
  }

  function NewInfo(a: Leg, timerSecs: nat, uuid: string, now: nat): Info {
    Info(a, true, timerSecs, false, false, Some(NewOriginationCdr(uuid, now)))
  }

  function NewAttempt(r: Route, uuid: string, url: string, now: nat): Attempt {
    Attempt(0, url, r.carrier, r.trunk, Cdr(TerminationTry, uuid, 0, now, 0, 0, NoCause, r.carrier, r.trunk))
  }

  // ---- answers to a call's INVITE ----

  const UINT: nat := 0x1_0000_0000

  /** The most alternate routes a termination may take, with the guard's unsigned subtraction. */
  function RetryLimit(retries: nat): nat { (retries + UINT - 1) % UINT }

  function Crankback(x: Attempt, r: Route, url: string): Attempt {
    Attempt(x.count + 1, url, r.carrier, r.trunk, x.cdr.(carrier := r.carrier, trunk := r.trunk))
  }

  /** What becomes of a termination after a final answer: sent again to the contact given, sent to
      another route, given up after the other route's INVITE could not be made, or given up. */
  datatype Verdict = Redirect(x: Attempt) | Alternate(x: Attempt) | Lost(x: Attempt) | GiveUp

  function Decide(x: Attempt, status: nat, url: string, alt: Option<Route>, made: bool, retries: nat): Verdict {
    if 300 <= status <= 399 && made then Redirect(x.(url := url))
    else if (status == 503 || status == 480) && x.count < RetryLimit(retries) && alt.Some? then
      var x1 := Crankback(x, alt.value, url);
      if made then Alternate(x1) else Lost(x1)
    else GiveUp
  }

  /** How an answer to a call's INVITE is taken: not at all, passed back while the call is still
      ringing, as the end of an origination's INVITE, or as the end of a termination attempt. */
  datatype Reaction =
    | Broken(fault: Fault)
    | Quiet
    | Ringing(irq: Irq)
    | Answered(irq: Irq, a: Leg, b: Leg, info: Info, cdr: Cdr)
    | Tried(irq: Irq, b: Leg, x: Attempt, v: Verdict)

  function React(t: Tables, retries: nat, e: Event): Reaction
    requires e.InviteResponse?
  {
    var irq := IrqOf(t, e.orq);
    var b := LegOf(t, e.orq);
    var a := ALegOf(t, irq);
    if irq == NULL then Broken(InviteTxnGone)
    else if b == NULL then Broken(InviteLegGone)
    else if a == NULL then Broken(InviteALegGone)
    else if e.orq !in t.attempts && !HasRecord(t, a) then Broken(InviteCdrGone)
    else if e.status == 100 then Quiet
    else if e.status < 200 then Ringing(irq)
    else if e.orq in t.attempts then
      var x := t.attempts[e.orq];
      Tried(irq, b, x, Decide(x, e.status, e.url, e.alt, e.b != NULL && e.newOrq != NULL, retries))
    else Answered(irq, a, b, t.infos[a], t.infos[a].cdr.value)
  }

  predicate HasRecord(t: Tables, a: Leg) { a in t.infos && t.infos[a].cdr.Some? }

  /** The tables once an INVITE is finally answered: the call stays up on 200 only. */
  function Ended(t: Tables, orq: Orq, b: Leg, status: nat): Out {
    var t1 := EraseAttempt(ClearTransaction(t, orq), orq);
    if status == 200 then Done(t1) else ClearDialog(t1, b)
  }

  function AfterReaction(t: Tables, r: Reaction, e: Event): Out
    requires e.InviteResponse?
  {
    match r
    case Broken(f) => Out(t, {f})
    case Quiet => Done(t)
    case Ringing(_) => Done(t)
    case Answered(_, a, b, info, _) =>
      Ended(if e.status == 200 then MarkAnswered(t, a, e.timerMade && info.timerSecs > 0) else t, e.orq, b, e.status)
    case Tried(irq, b, _, v) =>
      if v.Redirect? || v.Alternate? then MoveCall(t, irq, e.orq, b, e.newOrq, e.b, v.x)
      else Ended(t, e.orq, b, e.status)
  }

  // ---- the tables ----

  /** The A leg's record when its call is canceled, or the attempt's when a termination is. */
  function CancelRecord(t: Tables, leg: Leg, orq: Orq, now: nat): Option<Cdr> {
    if leg in t.infos then
      if t.infos[leg].cdr.Some? then Some(CancelCdr(t.infos[leg].cdr.value, now)) else None
    else if orq in t.attempts then Some(FinalCdr(t.attempts[orq].cdr, TerminationTry, 487, now))
    else None
  }

  /** The record that closes a call when `leg` sends BYE: that of the pair's origination, if any. */
  function ByeRecord(t: Tables, leg: Leg, now: nat): Option<Cdr> {
    if leg in t.infos && t.infos[leg].origination && t.infos[leg].cdr.Some? then
      Some(ByeCdr(t.infos[leg].cdr.value, true, now))
    else match Peer(t.dialogs, leg)
      case None => None
      case Some(other) =>
        if other in t.infos && t.infos[other].origination && t.infos[other].cdr.Some? then
          Some(ByeCdr(t.infos[other].cdr.value, false, now))
        else None
  }

  function AfterCancel(t: Tables, irq: Irq): Out {
    var leg := ALegOf(t, irq);
    if leg == NULL then Done(t)
    else if irq !in t.txns.left then ClearDialog(t, leg)
    else
      var orq := t.txns.left[irq];
      ClearDialog(EraseAttempt(ClearTransaction(t, orq), orq), leg)
  }

  function TablesAfter(t: Tables, retries: nat, e: Event): Out {
    match e
    case Originate(irq, serverFound, a, b, orq, timerSecs, uuid, now) =>
      if !serverFound || a == NULL || b == NULL || orq == NULL then Done(t)
      else AddCall(t, irq, a, b, orq, None, NewInfo(a, timerSecs, uuid, now))
    case Terminate(irq, route, a, b, orq, uuid, url, now) =>
      if route.None? || b == NULL || orq == NULL then Done(t)
      else AddCall(t, irq, a, b, orq, Some(NewAttempt(route.value, uuid, url, now)),
          Info(b, false, 0, false, false, None))
    case InviteResponse(_, _, _, _, _, _, _, _) => AfterReaction(t, React(t, retries, e), e)
    case Cancel(irq, _) => AfterCancel(t, irq)
    case Bye(leg, _, _) =>
      if Peer(t.dialogs, leg).None? then Out(t, {DialogPeerGone}) else ClearDialog(t, leg)
    case Forward(leg, irq, orq) =>
      if Peer(t.dialogs, leg).None? then Out(t, {DialogPeerGone})
      else AddInDialog(t, irq, orq, Peer(t.dialogs, leg).value)
    case Answer(orq, status, toInvite) =>
      if IrqOf(t, orq) == NULL then Out(t, {TxnGone})
      else Out(if status >= 200 then ClearTransaction(t, orq) else t,
               if toInvite && status == 200 && LegOf(t, orq) == NULL then {ReinviteLegGone} else {})
    case SessionTimer(leg) =>
      if leg !in t.infos then Done(t)
      else if Peer(t.dialogs, leg).None? then Out(t, {TimerPeerGone})
      else ClearDialog(t, leg)
    case ResetStats => Done(t)
  }

  // ---- what others see ----

  function PostedOrNone(c: Option<Cdr>): seq<Output> { if c.Some? then [Posted(c.value)] else [] }

  function ReactionOutputs(r: Reaction, status: nat, now: nat): seq<Output> {
    match r
    case Broken(_) => []
    case Quiet => []
    case Ringing(irq) => [Replied(irq, status)]
    case Answered(irq, _, _, _, cdr) => [Replied(irq, status), Posted(FinalCdr(cdr, OriginationFinal, status, now))]
    case Tried(irq, _, x, v) =>
      var record := Posted(FinalCdr(x.cdr, TerminationTry, status, now));
      match v
      case Redirect(x1) => [InviteSent(irq, x1.trunk, Redirected)]
      case Alternate(x1) => [record, InviteSent(irq, x1.trunk, AlternateRoute)]
      case Lost(x1) =>
        [record, AlternateLost(irq), Replied(irq, status), Posted(FinalCdr(x1.cdr, TerminationTry, status, now))]
      case GiveUp => [Replied(irq, status), record]
  }

  function Outputs(t: Tables, retries: nat, e: Event): seq<Output> {
    match e
    case Originate(irq, serverFound, a, b, orq, _, uuid, now) =>
      var cdr := NewOriginationCdr(uuid, now);
      if !serverFound then [Received(irq), Posted(cdr.(status := 486, cause := SystemError)), Replied(irq, 486)]
      else if a == NULL || b == NULL || orq == NULL then
        [Received(irq), Posted(cdr.(status := 503, cause := SystemError)), Replied(irq, 503)]
      else [Received(irq), InviteSent(irq, "", ToServer), Posted(cdr)]
    case Terminate(irq, route, a, b, orq, _, _, _) =>
      if route.None? then [Received(irq), Replied(irq, 480)]
      else if b == NULL || orq == NULL then [Received(irq), Replied(irq, 503)]
      else [Received(irq), InviteSent(irq, route.value.trunk, FirstRoute)]
    case InviteResponse(_, status, _, _, _, _, _, now) => ReactionOutputs(React(t, retries, e), status, now)
    case Cancel(irq, now) =>
      if irq in t.txns.left && ALegOf(t, irq) != NULL
      then PostedOrNone(CancelRecord(t, ALegOf(t, irq), t.txns.left[irq], now))
      else []
    case Bye(leg, irq, now) =>
      if Peer(t.dialogs, leg).None? then [Received(irq)]
      else [Received(irq)] + PostedOrNone(ByeRecord(t, leg, now)) + [Replied(irq, 200)]
    case Forward(_, irq, _) => [Received(irq)]
    case Answer(orq, status, _) => if IrqOf(t, orq) == NULL then [] else [Replied(IrqOf(t, orq), status)]
    case SessionTimer(_) => []
    case ResetStats => []
  }

  // ---- trunk counters ----

  function CountSend(stats: map<string, Counters>, trunk: string): map<string, Counters> {
    stats[trunk := CountAttempt(if trunk in stats then stats[trunk] else ZERO)]
  }

  function RecordFailure(stats: map<string, Counters>, trunk: string, status: nat): map<string, Counters> {
    if 400 <= status && trunk in stats && status < |stats[trunk].fails|
    then stats[trunk := CountFailure(stats[trunk], status)]
    else stats
  }

  function StatsAfter(stats: map<string, Counters>, t: Tables, retries: nat, e: Event): map<string, Counters> {
    match e
    case Terminate(_, route, _, b, orq, _, _, _) =>
      if route.Some? && b != NULL && orq != NULL then CountSend(stats, route.value.trunk) else stats
    case InviteResponse(_, status, _, _, _, _, _, _) =>
      var r := React(t, retries, e);
      if r.Tried? then
        var failed := RecordFailure(stats, r.x.trunk, status);
        if r.v.Redirect? || r.v.Alternate? then CountSend(failed, r.v.x.trunk) else failed
      else stats
    case ResetStats => map k | k in stats :: ZERO
    case _ => stats
  }

  // ---- one step ----

  function ClockAfter(clock: nat, e: Event): nat {
    if e.Originate? || e.Terminate? || e.InviteResponse? || e.Cancel? || e.Bye? then e.now else clock
  }

  function Step(s: State, e: Event): State {
    var o := TablesAfter(s.t, s.retries, e);
    State(o.t,
          StatsAfter(s.stats, s.t, s.retries, e),
          s.log + Outputs(s.t, s.retries, e),
          s.faults + o.faults,
          ClockAfter(s.clock, e),
          if e.Originate? then s.uuids + {e.uuid} else s.uuids,
          s.retries)
  }

  // ---- what the environment guarantees ----

  predicate NewIrq(t: Tables, irq: Irq) { irq != NULL && irq !in t.stack.irqs }

  predicate NewOrNullOrq(t: Tables, orq: Orq) { orq == NULL || orq !in t.stack.orqs }

  predicate NewOrNullLeg(t: Tables, leg: Leg) { leg == NULL || leg !in t.stack.legs }

  /** The stack hands out handles that are not in use (or none), calls back on live objects only,
      and time does not go backwards; session ids are unique. */
  predicate EnvOk(s: State, e: Event) {
    match e
    case Originate(irq, _, a, b, orq, _, uuid, now) =>
      && NewIrq(s.t, irq) && NewOrNullLeg(s.t, a) && NewOrNullLeg(s.t, b) && (a == b ==> a == NULL)
      && NewOrNullOrq(s.t, orq) && uuid !in s.uuids && s.clock <= now
    case Terminate(irq, _, a, b, orq, _, _, now) =>
      && NewIrq(s.t, irq) && NewOrNullLeg(s.t, a) && NewOrNullLeg(s.t, b) && (a == b ==> a == NULL)
      && NewOrNullOrq(s.t, orq) && s.clock <= now
    case InviteResponse(orq, status, _, _, b, newOrq, _, now) =>
      && orq in s.t.stack.orqs && s.t.stack.orqs[orq].kind == Invite && 100 <= status <= 699
      && NewOrNullLeg(s.t, b) && NewOrNullOrq(s.t, newOrq) && s.clock <= now
    case Cancel(irq, now) => irq in s.t.stack.irqs && s.t.stack.irqs[irq].bound && s.clock <= now
    case Bye(leg, irq, now) => leg in s.t.stack.legs && NewIrq(s.t, irq) && s.clock <= now
    case Forward(leg, irq, orq) => leg in s.t.stack.legs && NewIrq(s.t, irq) && NewOrNullOrq(s.t, orq)
    case Answer(orq, status, _) => orq in s.t.stack.orqs && s.t.stack.orqs[orq].kind == InDialog && 100 <= status <= 699
    case SessionTimer(leg) => leg in s.t.infos ==> s.t.infos[leg].timer
    case ResetStats => true
  }

  /** The two calls into the stack whose null result the source does not check. */
  predicate UncheckedNull(e: Event) {
    || (e.Terminate? && e.route.Some? && e.a == NULL && e.b != NULL && e.orq != NULL)
    || (e.Forward? && e.orq == NULL)
  }
}
