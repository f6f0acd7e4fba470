/** The connection to one media server: what each completed asynchronous operation does. */
module EventSocket {
  import opened Options
  import opened Tokens
  import opened FsMessages
  import opened FsEvidence
  import opened FsReader

  datatype Phase =
    | Starting | Resolving | ResolveFailed | Connecting | ConnectFailed | WaitingForGreeting
    | Authenticating | AuthenticationFailed | ObtainingConfiguration | ObtainingConfigurationFailed
    | QueryingStatus

  /** How many operations of each sort have been started and not completed. */
  datatype Ops = Ops(resolves: nat, connects: nat, receives: nat, timers: nat)

  const IDLE: Ops := Ops(0, 0, 0, 0)

  function Total(o: Ops): nat { o.resolves + o.connects + o.receives + o.timers }

  /** Commands written to the server. */
  datatype Command = Login | SofiaStatus | Status | Reload

  /** What passes between client and server: a new start, bytes read, commands written. */
  datatype Mark = Started | Got(data: string) | Wrote(command: Command)

  datatype Client = Client(
    phase: Phase, disconnected: bool, reloading: bool,
    current: nat, max: nat, address: string, port: nat,
    msg: Msg, ops: Ops, log: seq<Mark>)

  datatype Event =
    | Resolve(ok: bool)
    | Connect(ok: bool, more: bool)      // more: another endpoint is left to try
    | Read(ok: bool, data: string)
    | Timer(ok: bool)
    | ReloadXml

  const NEW: Client := Client(Starting, false, false, 0, 0, "", 0, FRESH, IDLE, [])

  predicate Legal(c: Client, e: Event) {
    match e
    case Resolve(_) => c.ops.resolves > 0
    case Connect(_, _) => c.ops.connects > 0
    case Read(_, _) => c.ops.receives > 0
    case Timer(_) => c.ops.timers > 0
    case ReloadXml => true
  }

  function StartReceive(c: Client): Client { c.(ops := c.ops.(receives := c.ops.receives + 1)) }
  function StartTimer(c: Client): Client { c.(ops := c.ops.(timers := c.ops.timers + 1)) }
  function StartConnect(c: Client): Client { c.(ops := c.ops.(connects := c.ops.connects + 1)) }
  function Record(c: Client, m: Mark): Client { c.(log := c.log + [m]) }

  function Start(c: Client): Client {
    Record(c.(phase := Resolving, msg := FRESH, ops := c.ops.(resolves := c.ops.resolves + 1)), Started)
  }

  function OnResolve(c: Client, ok: bool): Client {
    if ok then StartConnect(c.(phase := Connecting)) else StartTimer(c.(phase := ResolveFailed))
  }

  function OnConnect(c: Client, ok: bool, more: bool): Client {
    if ok then StartReceive(c.(phase := WaitingForGreeting))
    else if more then StartConnect(c)
    else StartTimer(c.(phase := ConnectFailed))
  }

  /** Sends a command, forgets the message just handled and waits for the answer. */
  function Exchange(c: Client, command: Command): Client {
    StartReceive(Done(Record(c, Wrote(command))))
  }

  function Done(c: Client): Client { c.(msg := FRESH) }

  predicate IsApiResponse(m: Msg) { m.category == Api && m.kind == Response }

  const INTERNAL: string := "internal"

  /** A complete message that is not a disconnect notice, with what reads as a profile or as
      session counts in it. */
  function OnMessage(c: Client, profile: Option<(string, nat)>, status: (bool, nat, nat)): Client {
    match c.phase
    case WaitingForGreeting =>
      if c.msg.category != Auth then StartTimer(Done(c))
      else Exchange(c.(phase := Authenticating), Login)
    case Authenticating =>
      if c.msg.reply != OkReply then StartTimer(Done(c.(phase := AuthenticationFailed)))
      else Exchange(c.(phase := ObtainingConfiguration), SofiaStatus)
    case ObtainingConfiguration =>
      if !IsApiResponse(c.msg) then Done(c)
      else if profile == None then StartTimer(Done(c.(phase := ObtainingConfigurationFailed)))
      else Exchange(c.(phase := QueryingStatus, address := profile.value.0, port := profile.value.1), Status)
    case QueryingStatus =>
      if !IsApiResponse(c.msg) then Done(c)
      else if c.reloading then Done(c.(reloading := false))
      else StartTimer(Done(c.(current := status.1, max := status.2, disconnected := c.disconnected && !status.0)))
    case _ => Done(c)
  }

  /** `m`: the message with `data` added. */
  function Received(c: Client, m: Msg, data: string): Client {
    var d := Record(c.(msg := m), Got(data));
    if !m.complete then StartReceive(d)
    else if m.category == Text && m.kind == DisconnectNotice then
      StartTimer(d.(disconnected := true, phase := Starting))
    else OnMessage(d, ReadProfile(Cut(m.content, NEWLINE), INTERNAL), ReadStatus(m.content, c.current, c.max))
  }

  function OnRead(c: Client, data: string): Client { Received(c, Append(c.msg, data), data) }

  function OnTimer(c: Client): Client {
    match c.phase
    case Starting => Start(c)
    case ConnectFailed => Start(c)
    case ResolveFailed => c
    case WaitingForGreeting => c
    case AuthenticationFailed => c
    case ObtainingConfigurationFailed => c
    case _ => StartReceive(Record(c, Wrote(Status)))
  }

  function OnReload(c: Client): Client {
    if c.phase != QueryingStatus then c
    else StartReceive(Record(c.(reloading := true), Wrote(Reload)))
  }

  function Step(c: Client, e: Event): Client
    requires Legal(c, e)
  {
    match e
    case Resolve(ok) => OnResolve(c.(ops := c.ops.(resolves := c.ops.resolves - 1)), ok)
    case Connect(ok, more) => OnConnect(c.(ops := c.ops.(connects := c.ops.connects - 1)), ok, more)
    case Read(ok, data) =>
      var d := c.(ops := c.ops.(receives := c.ops.receives - 1));
      if ok then OnRead(d, data) else d
    case Timer(ok) =>
      var d := c.(ops := c.ops.(timers := c.ops.timers - 1));
      if ok then OnTimer(d) else d
    case ReloadXml => OnReload(c)
  }

  // ---- what was said and heard ----

  /** One exchange: the command that began it, none for the greeting, and what was read since. */
  datatype Talk = Talk(asked: Option<Command>, heard: seq<string>)

  /** The exchanges since the connection was last started. */
  function Talks(log: seq<Mark>): (ts: seq<Talk>)
    ensures ts != []
  {
    if log == [] then [Talk(None, [])] else After(Talks(log[..|log| - 1]), log[|log| - 1])
  }

  function After(ts: seq<Talk>, m: Mark): (r: seq<Talk>)
    requires ts != []
    ensures r != []
  {
    match m
    case Started => [Talk(None, [])]
    case Got(data) => Heard(ts, data)
    case Wrote(command) => ts + [Talk(Some(command), [])]
  }

  function Last(ts: seq<Talk>): Talk
    requires ts != []
  {
    ts[|ts| - 1]
  }

  function Heard(ts: seq<Talk>, data: string): (r: seq<Talk>)
    requires ts != []
    ensures |r| == |ts|
  {
    ts[..|ts| - 1] + [Last(ts).(heard := Last(ts).heard + [data])]
  }

  lemma TalksSnoc(log: seq<Mark>, m: Mark)
    ensures Talks(log + [m]) == After(Talks(log), m)
  {
    assert (log + [m])[..|log|] == log;
  }

  /** The message that the chunks of an exchange make. */
  function MessageOf(t: Talk): Msg { AppendAll(FRESH, t.heard) }

  predicate Greets(t: Talk) { t.asked == None && MessageOf(t).complete && MessageOf(t).category == Auth }

  predicate Accepts(t: Talk) { t.asked == Some(Login) && MessageOf(t).complete && MessageOf(t).reply == OkReply }

  /** The answer to the profile query, and the contact it gives. */
  predicate Lists(t: Talk, profile: Option<(string, nat)>) {
    && t.asked == Some(SofiaStatus) && MessageOf(t).complete && IsApiResponse(MessageOf(t))
    && ReadProfile(Cut(MessageOf(t).content, NEWLINE), INTERNAL) == profile
  }

  // ---- what every run keeps ----

  /** What must have been said and heard for the client to be where it is. */
  predicate Handshake(phase: Phase, ts: seq<Talk>, address: string, port: nat) {
    match phase
    case Starting => true
    case Authenticating => |ts| == 2 && Greets(ts[0]) && ts[1].asked == Some(Login)
    case AuthenticationFailed =>
      |ts| == 2 && Greets(ts[0]) && ts[1].asked == Some(Login) && MessageOf(ts[1]).reply != OkReply
    case ObtainingConfiguration =>
      |ts| == 3 && Greets(ts[0]) && Accepts(ts[1]) && ts[2].asked == Some(SofiaStatus)
    case ObtainingConfigurationFailed =>
      |ts| == 3 && Greets(ts[0]) && Accepts(ts[1]) && Lists(ts[2], None)
    case QueryingStatus =>
      && |ts| >= 4 && Greets(ts[0]) && Accepts(ts[1]) && Lists(ts[2], Some((address, port)))
      && forall i :: 3 <= i < |ts| ==> ts[i].asked == Some(Status)
    case _ => |ts| == 1 && ts[0].asked == None
  }

  predicate HandshakeOk(c: Client) { Handshake(c.phase, Talks(c.log), c.address, c.port) }

  predicate Reading(p: Phase) {
    p == WaitingForGreeting || p == Authenticating || p == ObtainingConfiguration || p == QueryingStatus
  }

  predicate Waiting(p: Phase) {
    p == Starting || p == ResolveFailed || p == ConnectFailed || p == WaitingForGreeting ||
    p == AuthenticationFailed || p == ObtainingConfigurationFailed || p == QueryingStatus
  }

  /** At most one operation is under way, of the sort the phase calls for. */
  predicate OpsOk(c: Client) {
    && Total(c.ops) <= 1
    && (c.ops.resolves > 0 ==> c.phase == Resolving)
    && (c.ops.connects > 0 ==> c.phase == Connecting)
    && (c.ops.receives > 0 ==> Reading(c.phase))
    && (c.ops.timers > 0 ==> Waiting(c.phase))
  }

  /** The message under way holds what was read since its exchange began, and nothing older. */
  predicate MessageOk(c: Client) {
    && (c.ops.resolves + c.ops.connects > 0 ==> c.msg == FRESH && Last(Talks(c.log)).heard == [])
    && (c.ops.receives > 0 ==> c.msg == MessageOf(Last(Talks(c.log))) && !c.msg.complete)
    && (c.ops.timers > 0 && c.phase == QueryingStatus ==> c.msg == FRESH)
  }

  /** Between two regular queries the session counts are what the last answer shows. */
  predicate CountsOk(c: Client) {
    c.ops.timers > 0 && c.phase == QueryingStatus ==> ShowsStatus(MessageOf(Last(Talks(c.log))), c.current, c.max)
  }

  /** Reading the message again would not change the counts. */
  predicate ShowsStatus(m: Msg, current: nat, max: nat) {
    var r := ReadStatus(m.content, current, max);
    m.complete && IsApiResponse(m) && r.1 == current && r.2 == max
  }

  predicate Inv(c: Client) { OpsOk(c) && !c.reloading && HandshakeOk(c) && MessageOk(c) && CountsOk(c) }

  lemma NothingHeard(asked: Option<Command>)
    ensures MessageOf(Talk(asked, [])) == FRESH && !FRESH.complete
  {
  }

  lemma HeardOne(ts: seq<Talk>, data: string)
    requires ts != []
    ensures MessageOf(Last(Heard(ts, data))) == Append(MessageOf(Last(ts)), data)
  {
    var heard := Last(ts).heard + [data];
    assert heard[..|heard| - 1] == Last(ts).heard;
  }

  /** Hearing more of an answer that is still awaited. */
  lemma HearingKeepsHandshake(phase: Phase, ts: seq<Talk>, data: string, address: string, port: nat)
    requires Handshake(phase, ts, address, port) && Reading(phase)
    ensures ts != [] && Handshake(phase, Heard(ts, data), address, port)
  {
    var r := Heard(ts, data);
    assert forall i :: 0 <= i < |ts| - 1 ==> r[i] == ts[i];
    assert Last(r).asked == Last(ts).asked;
  }

  /** The whole answer: on to the next phase, with a new exchange, or no further. */
  lemma AnswerKeepsHandshake(c: Client, profile: Option<(string, nat)>, status: (bool, nat, nat))
    requires HandshakeOk(c) && Reading(c.phase) && c.msg == MessageOf(Last(Talks(c.log))) && c.msg.complete
    requires profile == ReadProfile(Cut(c.msg.content, NEWLINE), INTERNAL)
    ensures HandshakeOk(OnMessage(c, profile, status))
  {
    var d := OnMessage(c, profile, status);
    var ts := Talks(c.log);
    Moves(c, profile, status);
    if c.phase == WaitingForGreeting {
      GreetingTaken(ts, c.address, c.port);
    } else if c.phase == Authenticating {
      PasswordTaken(ts, c.address, c.port);
    } else if c.phase == ObtainingConfiguration {
      ProfileTaken(ts, profile, c.address, c.port);
    }
  }

  /** The command that follows a good answer, and the phase it leads to. */
  function Then(p: Phase): (Command, Phase) {
    match p
    case WaitingForGreeting => (Login, Authenticating)
    case Authenticating => (SofiaStatus, ObtainingConfiguration)
    case _ => (Status, QueryingStatus)
  }

  /** Whether an answer leads on to the next exchange. */
  predicate LeadsOn(p: Phase, m: Msg, profile: Option<(string, nat)>) {
    match p
    case WaitingForGreeting => m.category == Auth
    case Authenticating => m.reply == OkReply
    case ObtainingConfiguration => IsApiResponse(m) && profile.Some?
    case _ => false
  }

  /** Where an answer takes the client, and what is said next. */
  lemma Moves(c: Client, profile: Option<(string, nat)>, status: (bool, nat, nat))
    requires Reading(c.phase)
    ensures var d := OnMessage(c, profile, status);
      if LeadsOn(c.phase, c.msg, profile) then
        && Talks(d.log) == Talks(c.log) + [Talk(Some(Then(c.phase).0), [])] && d.phase == Then(c.phase).1
        && (if c.phase == ObtainingConfiguration then (d.address, d.port) == profile.value
            else d.address == c.address && d.port == c.port)
      else
        && d.log == c.log && d.address == c.address && d.port == c.port
        && d.phase == (if c.phase == Authenticating then AuthenticationFailed
                       else if c.phase == ObtainingConfiguration && IsApiResponse(c.msg)
                       then ObtainingConfigurationFailed else c.phase)
  {
    TalksSnoc(c.log, Wrote(Then(c.phase).0));
  }

  lemma GreetingTaken(ts: seq<Talk>, address: string, port: nat)
    requires Handshake(WaitingForGreeting, ts, address, port) && MessageOf(Last(ts)).complete
    ensures MessageOf(Last(ts)).category == Auth ==>
      Handshake(Authenticating, ts + [Talk(Some(Login), [])], address, port)
  {
  }

  lemma PasswordTaken(ts: seq<Talk>, address: string, port: nat)
    requires Handshake(Authenticating, ts, address, port) && MessageOf(Last(ts)).complete
    ensures if MessageOf(Last(ts)).reply == OkReply
      then Handshake(ObtainingConfiguration, ts + [Talk(Some(SofiaStatus), [])], address, port)
      else Handshake(AuthenticationFailed, ts, address, port)
  {
  }

  lemma ProfileTaken(ts: seq<Talk>, profile: Option<(string, nat)>, address: string, port: nat)
    requires Handshake(ObtainingConfiguration, ts, address, port) && MessageOf(Last(ts)).complete
    requires profile == ReadProfile(Cut(MessageOf(Last(ts)).content, NEWLINE), INTERNAL)
    ensures IsApiResponse(MessageOf(Last(ts))) ==>
      if profile == None then Handshake(ObtainingConfigurationFailed, ts, address, port)
      else Handshake(QueryingStatus, ts + [Talk(Some(Status), [])], profile.value.0, profile.value.1)
  {
    var more := ts + [Talk(Some(Status), [])];
    assert more[2] == ts[2] && more[3].asked == Some(Status);
  }

  lemma AnswerKeepsOps(c: Client, profile: Option<(string, nat)>, status: (bool, nat, nat))
    requires Total(c.ops) == 0 && Reading(c.phase) && !c.reloading
    ensures var d := OnMessage(c, profile, status); OpsOk(d) && !d.reloading && MessageOk(d)
  {
    Moves(c, profile, status);
    NothingHeard(Some(Then(c.phase).0));
    Operates(c, profile, status);
  }

  /** What an answer starts. */
  lemma Operates(c: Client, profile: Option<(string, nat)>, status: (bool, nat, nat))
    requires Reading(c.phase) && !c.reloading
    ensures var d := OnMessage(c, profile, status);
      && d.msg == FRESH && !d.reloading
      && if LeadsOn(c.phase, c.msg, profile) then d.ops == c.ops.(receives := c.ops.receives + 1)
         else if c.phase == WaitingForGreeting || c.phase == Authenticating || IsApiResponse(c.msg)
         then d.ops == c.ops.(timers := c.ops.timers + 1)
         else d.ops == c.ops
  {
  }

  lemma StatusSettles(content: string, current: nat, max: nat)
    ensures var (ok, c, m) := ReadStatus(content, current, max); ReadStatus(content, c, m) == (ok, c, m)
  {
  }

  lemma AnswerKeepsCounts(c: Client, profile: Option<(string, nat)>)
    requires Total(c.ops) == 0 && c.msg == MessageOf(Last(Talks(c.log))) && c.msg.complete && Reading(c.phase)
    ensures CountsOk(OnMessage(c, profile, ReadStatus(c.msg.content, c.current, c.max)))
  {
    StatusSettles(c.msg.content, c.current, c.max);
    Counts(c, profile, ReadStatus(c.msg.content, c.current, c.max));
  }

  /** Only an answer to a status query sets the timer in regular queries, with the counts read. */
  lemma Counts(c: Client, profile: Option<(string, nat)>, status: (bool, nat, nat))
    requires Total(c.ops) == 0
    ensures var d := OnMessage(c, profile, status);
      d.ops.timers > 0 && d.phase == QueryingStatus ==>
        d.log == c.log && IsApiResponse(c.msg) && d.current == status.1 && d.max == status.2
  {
  }

  lemma ReceivedKeepsInv(c: Client, m: Msg, data: string)
    requires Total(c.ops) == 0 && Reading(c.phase) && !c.reloading && HandshakeOk(c)
    requires m == MessageOf(Last(Heard(Talks(c.log), data)))
    ensures Inv(Received(c, m, data))
  {
    var d := Record(c.(msg := m), Got(data));
    TalksSnoc(c.log, Got(data));
    HearingKeepsHandshake(c.phase, Talks(c.log), data, c.address, c.port);
    if !m.complete {
      MoreToCome(d);
    } else if m.category == Text && m.kind == DisconnectNotice {
      assert Received(c, m, data) == StartTimer(d.(disconnected := true, phase := Starting));
    } else {
      WholeAnswer(d);
      assert Received(c, m, data) ==
        OnMessage(d, ReadProfile(Cut(m.content, NEWLINE), INTERNAL), ReadStatus(m.content, c.current, c.max));
    }
  }

  lemma MoreToCome(d: Client)
    requires Total(d.ops) == 0 && Reading(d.phase) && !d.reloading && HandshakeOk(d)
    requires d.msg == MessageOf(Last(Talks(d.log))) && !d.msg.complete
    ensures Inv(StartReceive(d))
  {
  }

  lemma WholeAnswer(d: Client)
    requires Total(d.ops) == 0 && Reading(d.phase) && !d.reloading && HandshakeOk(d)
    requires d.msg == MessageOf(Last(Talks(d.log))) && d.msg.complete
    ensures Inv(OnMessage(d, ReadProfile(Cut(d.msg.content, NEWLINE), INTERNAL),
                          ReadStatus(d.msg.content, d.current, d.max)))
  {
    var profile := ReadProfile(Cut(d.msg.content, NEWLINE), INTERNAL);
    var status := ReadStatus(d.msg.content, d.current, d.max);
    AnswerKeepsHandshake(d, profile, status);
    AnswerKeepsOps(d, profile, status);
    AnswerKeepsCounts(d, profile);
  }

  lemma ReadKeepsInv(c: Client, data: string)
    requires Total(c.ops) == 0 && Reading(c.phase) && !c.reloading && HandshakeOk(c)
    requires c.msg == MessageOf(Last(Talks(c.log)))
    ensures Inv(OnRead(c, data))
  {
    HeardOne(Talks(c.log), data);
    ReceivedKeepsInv(c, Append(c.msg, data), data);
  }

  lemma TimerKeepsInv(c: Client)
    requires Total(c.ops) == 0 && Waiting(c.phase) && !c.reloading && HandshakeOk(c)
    requires c.phase == QueryingStatus ==> c.msg == FRESH
    ensures Inv(OnTimer(c))
  {
    if c.phase == Starting || c.phase == ConnectFailed {
      StartKeepsInv(c);
    } else if c.phase == QueryingStatus {
      AskingKeepsInv(c);
    }
  }

  lemma StartKeepsInv(c: Client)
    requires Total(c.ops) == 0 && !c.reloading
    ensures Inv(Start(c))
  {
    TalksSnoc(c.log, Started);
  }

  lemma AskingKeepsInv(c: Client)
    requires Total(c.ops) == 0 && c.phase == QueryingStatus && !c.reloading && HandshakeOk(c) && c.msg == FRESH
    ensures Inv(StartReceive(Record(c, Wrote(Status))))
  {
    TalksSnoc(c.log, Wrote(Status));
    NothingHeard(Some(Status));
  }

  /** Without a configuration reload every step keeps: one operation at most; a phase that what was
      said and heard accounts for; a message that began empty; counts that the last answer shows. */
  lemma StepKeepsInv(c: Client, e: Event)
    requires Inv(c) && Legal(c, e) && e != ReloadXml
    ensures Inv(Step(c, e))
  {
    match e
    case Resolve(ok) =>
    case Connect(ok, more) => NothingHeard(Last(Talks(c.log)).asked);
    case Read(ok, data) =>
      if ok { ReadKeepsInv(c.(ops := c.ops.(receives := c.ops.receives - 1)), data); }
    case Timer(ok) =>
      if ok { TimerKeepsInv(c.(ops := c.ops.(timers := c.ops.timers - 1))); }
  }

  predicate LegalRun(c: Client, es: seq<Event>)
    decreases es
  {
    es == [] || (Legal(c, es[0]) && es[0] != ReloadXml && LegalRun(Step(c, es[0]), es[1..]))
  }

  function Exec(c: Client, es: seq<Event>): Client
    requires LegalRun(c, es)
    decreases es
  {
    if es == [] then c else Exec(Step(c, es[0]), es[1..])
  }

  lemma {:induction false} ExecKeepsInv(c: Client, es: seq<Event>)
    requires Inv(c) && LegalRun(c, es)
    ensures Inv(Exec(c, es))
    decreases es
  {
    if es != [] {
      StepKeepsInv(c, es[0]);
      ExecKeepsInv(Step(c, es[0]), es[1..]);
    }
  }

  predicate LoggingIn(p: Phase) { p == Authenticating || p == AuthenticationFailed || LoggedIn(p) }

  predicate LoggedIn(p: Phase) {
    p == ObtainingConfiguration || p == ObtainingConfigurationFailed || p == QueryingStatus
  }

  /** The bytes read since the last start: the greeting's before the password is sent, and the
      acceptance of the password before anything is queried. */
  ghost predicate BytesOk(p: Phase, ts: seq<Talk>) {
    && (LoggingIn(p) ==> |ts| >= 2 && ts[0].asked == None && SaysAuth(Flat(ts[0].heard)) && ts[1].asked == Some(Login))
    && (LoggedIn(p) ==> |ts| >= 3 && SaysOk(Flat(ts[1].heard)))
  }

  lemma HandshakeInBytes(p: Phase, ts: seq<Talk>, address: string, port: nat)
    requires Handshake(p, ts, address, port)
    ensures BytesOk(p, ts)
  {
    if LoggingIn(p) {
      MessageBacked(ts[0].heard);
      if LoggedIn(p) { MessageBacked(ts[1].heard); }
    }
  }

  /** In every run from the first start: at most one operation is under way; regular status queries
      happen only after the server has, since the last start, sent an auth greeting, accepted the
      password and listed the profile whose address and port the client has; the bytes read show the
      greeting and the acceptance, whatever the parser made of them; the timer meets none but the
      phases it handles or regular queries. */
  lemma RunKeepsInv(es: seq<Event>)
    requires LegalRun(Start(NEW), es)
    ensures var c := Exec(Start(NEW), es);
      && Inv(c) && Total(c.ops) <= 1
      && (c.phase == QueryingStatus ==>
            var ts := Talks(c.log);
            |ts| >= 4 && Greets(ts[0]) && Accepts(ts[1]) && Lists(ts[2], Some((c.address, c.port))))
      && BytesOk(c.phase, Talks(c.log))
      && (c.ops.timers > 0 ==> Waiting(c.phase))
  {
    TalksSnoc([], Started);
    ExecKeepsInv(Start(NEW), es);
    var c := Exec(Start(NEW), es);
    HandshakeInBytes(c.phase, Talks(c.log), c.address, c.port);
  }

  /** A reload leaves two operations under way exactly when one was under way in regular queries. */
  lemma ReloadOverlaps(c: Client)
    requires Inv(c)
    ensures Total(Step(c, ReloadXml).ops) <= 1 <==> !(c.phase == QueryingStatus && Total(c.ops) == 1)
  {
  }

  /** After which completions nothing is under way any more, so that the server is given up. */
  predicate Stalls(c: Client, e: Event) {
    match e
    case Read(ok, data) => !ok || StallsOn(c.phase, Append(c.msg, data))
    case Timer(ok) =>
      !ok || c.phase == ResolveFailed || c.phase == WaitingForGreeting ||
      c.phase == AuthenticationFailed || c.phase == ObtainingConfigurationFailed
    case _ => false
  }

  /** An unexpected message while waiting for the answer to a query. */
  predicate StallsOn(phase: Phase, m: Msg) {
    && (phase == ObtainingConfiguration || phase == QueryingStatus)
    && m.complete && !IsApiResponse(m) && !(m.category == Text && m.kind == DisconnectNotice)
  }

  lemma StallsExactly(c: Client, e: Event)
    requires Inv(c) && Legal(c, e) && e != ReloadXml
    ensures Total(Step(c, e).ops) == 0 <==> Stalls(c, e)
  {
    match e
    case Read(ok, data) =>
      ReceivedStalls(c.(ops := c.ops.(receives := c.ops.receives - 1)), Append(c.msg, data), data);
    case Timer(ok) =>
    case Resolve(ok) =>
    case Connect(ok, more) =>
  }

  lemma ReceivedStalls(c: Client, m: Msg, data: string)
    requires Total(c.ops) == 0 && Reading(c.phase) && !c.reloading
    ensures Total(Received(c, m, data).ops) == 0 <==> StallsOn(c.phase, m)
  {
  }
}
