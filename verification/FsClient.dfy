/** The event socket client itself: its fields and the handlers of its asynchronous operations. */
module FsClient {
  import opened Options
  import opened FsMessages
  import opened FsReader
  import opened EventSocket

  /** Writing a command, forgetting the message, awaiting the answer, and setting the timer. */
  ghost function Finish(c: Client, setTimer: bool, out: Option<Command>): Client {
    var d := if out.Some? then Exchange(c, out.value) else Done(c);
    if setTimer then EventSocket.StartTimer(d) else d
  }

  class FsInstance {
    var state: Phase
    var disconnected: bool
    var reloadingXml: bool
    var currentSessions: nat
    var maxSessions: nat
    var sipAddress: string
    var sipPort: nat
    const fsMsg: FsMessage
    ghost var ops: Ops
    ghost var log: seq<Mark>

    ghost function View(): Client
      reads this, fsMsg
    {
      Client(state, disconnected, reloadingXml, currentSessions, maxSessions, sipAddress, sipPort,
             fsMsg.View(), ops, log)
    }

    constructor ()
      ensures View() == NEW && fresh(fsMsg)
    {
      state, disconnected, reloadingXml := Starting, false, false;
      currentSessions, maxSessions, sipAddress, sipPort := 0, 0, "", 0;
      fsMsg := new FsMessage();
      ops, log := IDLE, [];
    }

    method Start()
      modifies this, fsMsg
      ensures View() == EventSocket.Start(old(View()))
    {
      state := Resolving;
      fsMsg.Reset();
      log := log + [Started];
      ops := ops.(resolves := ops.resolves + 1);
    }

    method StartTimer()
      modifies this`ops
      ensures View() == EventSocket.StartTimer(old(View()))
    {
      ops := ops.(timers := ops.timers + 1);
    }

    method AsyncRead()
      modifies this`ops
      ensures View() == StartReceive(old(View()))
    {
      ops := ops.(receives := ops.receives + 1);
    }

    method AsyncConnect()
      modifies this`ops
      ensures View() == StartConnect(old(View()))
    {
      ops := ops.(connects := ops.connects + 1);
    }

    method ResolveHandler(ok: bool)
      requires Legal(View(), Resolve(ok))
      modifies this
      ensures View() == Step(old(View()), Resolve(ok))
    {
      ops := ops.(resolves := ops.resolves - 1);
      if ok {
        state := Connecting;
        AsyncConnect();
      } else {
        state := ResolveFailed;
        StartTimer();
      }
    }

    method ConnectHandler(ok: bool, more: bool)
      requires Legal(View(), Connect(ok, more))
      modifies this
      ensures View() == Step(old(View()), Connect(ok, more))
    {
      ops := ops.(connects := ops.connects - 1);
      if ok {
        state := WaitingForGreeting;
        AsyncRead();
      } else if more {
        AsyncConnect();
      } else {
        state := ConnectFailed;
        StartTimer();
      }
    }

    method ReadHandler(ok: bool, data: string)
      requires Legal(View(), Read(ok, data))
      modifies this, fsMsg
      ensures View() == Step(old(View()), Read(ok, data))
    {
      ops := ops.(receives := ops.receives - 1);
      if !ok { return; }
      var complete := fsMsg.Append(data);
      log := log + [Got(data)];
      if !complete {
        AsyncRead();
        return;
      }
      if fsMsg.category == Text && fsMsg.kind == DisconnectNotice {
        disconnected := true;
        state := Starting;
        StartTimer();
        return;
      }
      HandleMessage();
    }

    /** What a complete message other than a disconnect notice leads to. */
    ghost function Handled(): Client
      reads this, fsMsg
    {
      OnMessage(View(), ReadProfile(Tokens.Cut(fsMsg.content, Tokens.NEWLINE), INTERNAL),
                ReadStatus(fsMsg.content, currentSessions, maxSessions))
    }

    /** The part of the read handler that depends on the phase of the connection. */
    method HandleMessage()
      modifies this, fsMsg
      ensures View() == old(Handled())
    {
      var setTimer, out := false, None;
      match state {
        case WaitingForGreeting => setTimer, out := Greet();
        case Authenticating => setTimer, out := Authenticate();
        case ObtainingConfiguration => setTimer, out := ObtainConfiguration();
        case QueryingStatus => setTimer := QueryStatus();
        case _ =>
      }
      Conclude(setTimer, out);
    }

    method Conclude(setTimer: bool, out: Option<Command>)
      modifies this, fsMsg
      ensures View() == Finish(old(View()), setTimer, out)
    {
      if out.Some? { log := log + [Wrote(out.value)]; }
      fsMsg.Reset();
      if out.Some? { AsyncRead(); }
      if setTimer { StartTimer(); }
    }

    /** Each of these returns whether to set the timer and the command to write, if any. */
    method Greet() returns (setTimer: bool, out: Option<Command>)
      requires state == WaitingForGreeting
      modifies this`state
      ensures Finish(View(), setTimer, out) == old(Handled())
    {
      setTimer, out := false, None;
      if fsMsg.category != Auth {
        setTimer := true;
      } else {
        out := Some(Login);
        state := Authenticating;
      }
    }

    method Authenticate() returns (setTimer: bool, out: Option<Command>)
      requires state == Authenticating
      modifies this`state
      ensures Finish(View(), setTimer, out) == old(Handled())
    {
      setTimer, out := false, None;
      if fsMsg.reply != OkReply {
        state, setTimer := AuthenticationFailed, true;
      } else {
        out := Some(SofiaStatus);
        state := ObtainingConfiguration;
      }
    }

    method ObtainConfiguration() returns (setTimer: bool, out: Option<Command>)
      requires state == ObtainingConfiguration
      modifies this`state, this`sipAddress, this`sipPort
      ensures Finish(View(), setTimer, out) == old(Handled())
    {
      setTimer, out := false, None;
      if fsMsg.category == Api && fsMsg.kind == Response {
        var profile := fsMsg.GetSipProfile(INTERNAL);
        if profile == None {
          state, setTimer := ObtainingConfigurationFailed, true;
        } else {
          sipAddress, sipPort := profile.value.0, profile.value.1;
          out := Some(Status);
          state := QueryingStatus;
        }
      }
    }

    method QueryStatus() returns (setTimer: bool)
      requires state == QueryingStatus
      modifies this`currentSessions, this`maxSessions, this`disconnected, this`reloadingXml
      ensures Finish(View(), setTimer, None) == old(Handled())
    {
      setTimer := false;
      if fsMsg.category == Api && fsMsg.kind == Response {
        if reloadingXml {
          reloadingXml := false;
        } else {
          var ok, current, max := fsMsg.GetFsStatus(currentSessions, maxSessions);
          currentSessions, maxSessions, setTimer := current, max, true;
          if ok && disconnected { disconnected := false; }
        }
      }
    }

    method TimerHandler(ok: bool)
      requires Legal(View(), Timer(ok))
      modifies this, fsMsg
      ensures View() == Step(old(View()), Timer(ok))
    {
      ops := ops.(timers := ops.timers - 1);
      if !ok { return; }
      match state {
        case Starting => Start();
        case ConnectFailed =>
          state := Starting;
          Start();
        case ResolveFailed =>
        case WaitingForGreeting =>
        case AuthenticationFailed =>
        case ObtainingConfigurationFailed =>
        case _ =>
          log := log + [Wrote(Status)];
          AsyncRead();
      }
    }

    method ReloadXml()
      modifies this
      ensures View() == Step(old(View()), EventSocket.ReloadXml)
    {
      if state != QueryingStatus { return; }
      log := log + [Wrote(Reload)];
      reloadingXml := true;
      AsyncRead();
    }
  }
}
