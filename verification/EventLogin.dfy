/** How the client gets past dead endpoints, what the answer to the password and a notice of closing
    down do to it, and a configuration reload between two queries. */
module EventLogin {
  import opened Decimal
  import opened Tokens
  import opened FsMessages
  import opened FsChunks
  import opened FsReplies
  import opened EventSocket
  import opened EventQueries

  // ---- endpoints ----

  /** That many endpoints that refuse the connection, with more to come. */
  function DeadEnds(n: nat): (es: seq<Event>)
    ensures |es| == n
  {
    if n == 0 then [] else DeadEnds(n - 1) + [Connect(false, true)]
  }

  lemma {:induction false} DeadEndsPass(c: Client, n: nat)
    requires c.phase == Connecting && c.ops == Ops(0, 1, 0, 0)
    ensures Reaches(c, DeadEnds(n), c)
  {
    if n == 0 {
      ReachesNone(c);
    } else {
      DeadEndsPass(c, n - 1);
      ReachesMore(c, DeadEnds(n - 1), c, Connect(false, true), c);
    }
  }

  /** However many endpoints refuse: the first that does not is read from; when none is left the
      client waits for its timer and then starts again. */
  lemma EndpointsTried(c: Client, n: nat, more: bool)
    requires c.phase == Connecting && c.ops == Ops(0, 1, 0, 0)
    ensures Reaches(c, DeadEnds(n) + [Connect(true, more)],
                    c.(phase := WaitingForGreeting, ops := Ops(0, 0, 1, 0)))
    ensures Reaches(c, DeadEnds(n) + [Connect(false, false)] + [Timer(true)],
                    c.(phase := Resolving, ops := Ops(1, 0, 0, 0), msg := FRESH, log := c.log + [Started]))
  {
    DeadEndsPass(c, n);
    var open := c.(phase := WaitingForGreeting, ops := Ops(0, 0, 1, 0));
    ReachesMore(c, DeadEnds(n), c, Connect(true, more), open);
    var failed := c.(phase := ConnectFailed, ops := Ops(0, 0, 0, 1));
    ReachesMore(c, DeadEnds(n), c, Connect(false, false), failed);
    var again := c.(phase := Resolving, ops := Ops(1, 0, 0, 0), msg := FRESH, log := c.log + [Started]);
    ReachesMore(c, DeadEnds(n) + [Connect(false, false)], failed, Timer(true), again);
  }

  // ---- the answer to the password ----

  /** The client has sent the password and waits for the answer. */
  predicate Awaits(d: Client) {
    d.phase == Authenticating && d.ops == Ops(0, 0, 1, 0) && d.msg == FRESH && !d.reloading
  }

  /** The chunks of an answer up to the one that settles it. */
  predicate UpToVerdict(chunks: seq<string>, s: string) {
    && Clean(s, NEWLINE) && chunks != [] && Begins(Flat(chunks), ReplyMessage(s))
    && |Flat(chunks[..|chunks| - 1])| <= |REPLY_START| < |Flat(chunks)|
  }

  lemma {:induction false} ShortFront(chunks: seq<string>, k: nat)
    requires k < |chunks| && |Flat(chunks[..|chunks| - 1])| <= |REPLY_START|
    ensures |Flat(chunks[..k])| <= |REPLY_START| && Begins(Flat(chunks[..k]), Flat(chunks))
  {
    FlatGrows(chunks, k);
    FlatGrows(chunks[..|chunks| - 1], k);
    FrontSlice(chunks, k);
  }

  lemma BeginsThrough(a: string, b: string, c: string)
    requires Begins(a, b) && Begins(b, c)
    ensures Begins(a, c)
  {
    assert c[..|a|] == c[..|b|][..|a|];
  }

  /** No chunk before the settling one completes the message, which then tells what it says. */
  lemma VerdictComes(chunks: seq<string>, s: string)
    requires UpToVerdict(chunks, s)
    ensures OpenBefore(FRESH, chunks)
    ensures var m := AppendAll(FRESH, chunks);
      && m.category == Command && (m.complete <==> m.reply != Undefined)
      && (m.reply == OkReply <==> Begins(OK_BYTES, Flat(chunks)))
      && (m.reply == ErrReply <==> Begins(ERR_BYTES, Flat(chunks)))
  {
    ReplyProgress(chunks, s);
    forall k: nat | k < |chunks| ensures !AppendAll(FRESH, chunks[..k]).complete {
      ShortFront(chunks, k);
      BeginsThrough(Flat(chunks[..k]), Flat(chunks), ReplyMessage(s));
      ReplyProgress(chunks[..k], s);
    }
  }

  /** Where a whole answer takes the client that awaits it. */
  function Judgement(d: Client, log: seq<Mark>, ok: bool): Client {
    if ok then d.(phase := ObtainingConfiguration, log := log + [Wrote(SofiaStatus)])
    else d.(phase := AuthenticationFailed, ops := Ops(0, 0, 0, 1), log := log)
  }

  lemma LastOfAnswer(d: Client, data: string, m: Msg)
    requires d.phase == Authenticating && d.ops == Ops(0, 0, 1, 0) && m == Append(d.msg, data)
    requires m.complete && m.category == Command
    ensures Good(d, Read(true, data), Judgement(d.(msg := FRESH), d.log + [Got(data)], m.reply == OkReply))
  {
  }

  /** For every run that has sent the password and every chunking of the answer: bytes that say +OK
      lead on to the profile query; bytes that say +ERR lead to the failed state, where nothing is
      sent any more. */
  lemma PasswordJudged(c: Client, es: seq<Event>, d: Client, chunks: seq<string>, s: string)
    requires Reaches(c, es, d) && Awaits(d) && UpToVerdict(chunks, s)
    requires Begins(OK_BYTES, Flat(chunks)) || Begins(ERR_BYTES, Flat(chunks))
    ensures Reaches(c, es + Reads(chunks), Judgement(d, d.log + Gots(chunks), Begins(OK_BYTES, Flat(chunks))))
  {
    VerdictComes(chunks, s);
    var front, last := chunks[..|chunks| - 1], chunks[|chunks| - 1];
    FrontOpen(d.msg, chunks);
    PartialReads(c, es, d, front);
    AppendLast(d.msg, chunks);
    var f := d.(msg := AppendAll(d.msg, front), log := d.log + Gots(front));
    var ok := Begins(OK_BYTES, Flat(chunks));
    LastOfAnswer(f, last, AppendAll(FRESH, chunks));
    ReachesMore(c, es + Reads(front), f, Read(true, last), Judgement(f.(msg := FRESH), f.log + [Got(last)], ok));
    ReadsSnoc(es, d.log, chunks);
    assert Judgement(f.(msg := FRESH), f.log + [Got(last)], ok) == Judgement(d, d.log + Gots(chunks), ok);
  }

  /** An answer with any other text leaves the client waiting for ever, whatever it reads later. */
  lemma OtherAnswerWaits(c: Client, es: seq<Event>, d: Client, chunks: seq<string>, s: string, later: seq<string>)
    requires Reaches(c, es, d) && Awaits(d) && Clean(s, NEWLINE) && Flat(chunks) == ReplyMessage(s)
    requires !StartsWith(s, "+OK") && !StartsWith(s, "+ERR")
    ensures exists m :: Reaches(c, es + Reads(chunks) + Reads(later),
                                d.(msg := m, log := d.log + Gots(chunks) + Gots(later)))
  {
    NeverOpens(chunks, s);
    PartialReads(c, es, d, chunks);
    var n := AppendAll(FRESH, chunks);
    var f := d.(msg := n, log := d.log + Gots(chunks));
    forall k: nat | 0 < k <= |later| ensures !AppendAll(n, later[..k]).complete {
      OtherReplyWaits(chunks, s, later[..k]);
    }
    PartialReads(c, es + Reads(chunks), f, later);
    var m := AppendAll(n, later);
    assert f.(msg := m, log := f.log + Gots(later)) == d.(msg := m, log := d.log + Gots(chunks) + Gots(later));
  }

  lemma NeverOpens(chunks: seq<string>, s: string)
    requires Clean(s, NEWLINE) && Flat(chunks) == ReplyMessage(s) && !StartsWith(s, "+OK") && !StartsWith(s, "+ERR")
    ensures Open(FRESH, chunks)
  {
    forall k: nat | 0 < k <= |chunks| ensures !AppendAll(FRESH, chunks[..k]).complete {
      FlatGrows(chunks, k);
      ReplyProgress(chunks[..k], s);
      JudgedBegins(chunks[..k]);
      BeginsThrough(Judged(chunks[..k]), Flat(chunks[..k]), ReplyMessage(s));
      NoVerdict(Judged(chunks[..k]), s);
    }
  }

  // ---- a notice of closing down ----

  const TEXT: string := "text"
  const NOTICE: string := "disconnect-notice"
  const NOTICE_LINE: string := CONTENT_TYPE + (TEXT + SLASH + NOTICE)

  function NoticeMessage(body: string): string {
    NOTICE_LINE + NEWLINE + (CONTENT_LENGTH + Plain(|body|) + NEWLINE + NEWLINE) + body
  }

  lemma NoticeClean()
    ensures NOTICE_LINE != [] && Clean(NOTICE_LINE, NEWLINE)
  {
    assert NOTICE_LINE == "Content-Type: text/disconnect-notice";
  }

  lemma NoticeCut(body: string, first: string, second: string)
    requires first == NOTICE_LINE && second == CONTENT_LENGTH + Plain(|body|)
    ensures Cut(NoticeMessage(body), NEWLINE) == [first, second] + Cut(body, NEWLINE)
  {
    NoticeClean();
    DigitsClean(|body|);
    CutTwo(first, second, body);
  }

  lemma NoticeTyped(m: Msg)
    ensures TypeLine(m, NOTICE_LINE) == (m.(category := Text, kind := DisconnectNotice), true)
  {
    assert Clean(TEXT, SLASH) && Clean(NOTICE, SLASH);
    TypeRead(m, TEXT, NOTICE);
  }

  lemma NoticeLines(m: Msg, first: string, second: string, body: string)
    requires Blank(m) && first == NOTICE_LINE && second == CONTENT_LENGTH + Plain(|body|)
    requires 0 < |body| < WORD && WholeLines(body)
    ensures Lines(m, [first, second] + Cut(body, NEWLINE))
      == (m.(category := Text, kind := DisconnectNotice, length := |body|, content := body), true)
  {
    var lines := Cut(body, NEWLINE);
    NoticeTyped(m);
    var m1 := m.(category := Text, kind := DisconnectNotice);
    LengthAccepted(m1, |body|);
    var m2 := m1.(length := |body|);
    TwoLines(m, first, second, lines, m1, m2);
    BodyAccepted(m2, lines);
    JoinCut(body);
    assert "" + Join(lines) == body;
  }

  lemma NoticeRead(body: string)
    requires 0 < |body| < WORD && WholeLines(body)
    ensures var m := Append(FRESH, NoticeMessage(body));
      m.complete && m.category == Text && m.kind == DisconnectNotice && m.content == body
  {
    var raw := NoticeMessage(body);
    var start := FRESH.(raw := raw);
    assert FRESH.raw + raw == raw;
    NoticeCut(body, NOTICE_LINE, CONTENT_LENGTH + Plain(|body|));
    NoticeLines(start, NOTICE_LINE, CONTENT_LENGTH + Plain(|body|), body);
    ParsedWhole(FRESH, raw, start.(category := Text, kind := DisconnectNotice, length := |body|, content := body));
  }

  /** In whatever phase it reads one, the client is marked as disconnected, asks nothing more of the
      server, and starts again from the beginning when its timer fires. */
  lemma NoticeRestarts(c: Client, body: string)
    requires Inv(c) && c.ops.receives == 1 && c.msg == FRESH && 0 < |body| < WORD && WholeLines(body)
    ensures var es := [Read(true, NoticeMessage(body)), Timer(true)];
      && LegalRun(c, es)
      && Exec(c, es) == c.(phase := Resolving, disconnected := true, msg := FRESH, ops := Ops(1, 0, 0, 0),
                          log := c.log + [Got(NoticeMessage(body)), Started])
  {
    var data := NoticeMessage(body);
    NoticeRead(body);
    var d := Step(c, Read(true, data));
    assert d == c.(msg := Append(FRESH, data), phase := Starting, disconnected := true, ops := Ops(0, 0, 0, 1),
                   log := c.log + [Got(data)]);
    var e := Step(d, Timer(true));
    assert c.log + [Got(data)] + [Started] == c.log + [Got(data), Started];
    ReachesNone(c);
    ReachesMore(c, [], c, Read(true, data), d);
    ReachesMore(c, [] + [Read(true, data)], d, Timer(true), e);
    assert [] + [Read(true, data)] + [Timer(true)] == [Read(true, data), Timer(true)];
    ReachesIsExec(c, [Read(true, data), Timer(true)], e);
  }

  // ---- a reload between two queries ----

  /** Any answer to the reload, however cut, leaves the client as it was: the session counts, the
      message and the timer under way are untouched. */
  lemma ReloadBetweenQueries(c: Client, body: string, chunks: seq<string>)
    requires Inv(c) && c.phase == QueryingStatus && c.ops.timers == 1 && Sent(body, chunks)
    ensures Reaches(Step(c, ReloadXml), Reads(chunks), c.(log := c.log + [Wrote(Reload)] + Gots(chunks)))
  {
    BetweenQueries(c);
    ReloadAsked(c);
    EventQueries.Finished(body, chunks);
    forall k | 0 <= k < |chunks| ensures !AppendAll(FRESH, chunks[..k]).complete { Unfinished(body, chunks, k); }
    ReloadArrives(c, c.log + [Wrote(Reload)], chunks);
  }

  /** The client with a reload under way. */
  function Reloads(c: Client, log: seq<Mark>): Client { c.(reloading := true, ops := Ops(0, 0, 1, 1), log := log) }

  lemma ReloadAsked(c: Client)
    requires c.phase == QueryingStatus && c.ops == Ops(0, 0, 0, 1)
    ensures Step(c, ReloadXml) == Reloads(c, c.log + [Wrote(Reload)])
  {
  }

  lemma BetweenQueries(c: Client)
    requires OpsOk(c) && MessageOk(c) && c.phase == QueryingStatus && c.ops.timers == 1
    ensures c.msg == FRESH && c.ops == Ops(0, 0, 0, 1)
  {
  }

  lemma ReloadArrives(c: Client, log: seq<Mark>, chunks: seq<string>)
    requires c.phase == QueryingStatus && c.msg == FRESH && c.ops == Ops(0, 0, 0, 1) && !c.reloading
    requires chunks != [] && OpenBefore(FRESH, chunks)
    requires AppendAll(FRESH, chunks).complete && IsApiResponse(AppendAll(FRESH, chunks))
    ensures Reaches(Reloads(c, log), Reads(chunks), c.(log := log + Gots(chunks)))
  {
    var d := Reloads(c, log);
    var front, last := chunks[..|chunks| - 1], chunks[|chunks| - 1];
    FrontOpen(FRESH, chunks);
    ReachesNone(d);
    PartialReads(d, [], d, front);
    AppendLast(FRESH, chunks);
    var f := d.(msg := AppendAll(FRESH, front), log := log + Gots(front));
    ReloadAnswered(f, last);
    var g := f.(msg := FRESH, reloading := false, ops := Ops(0, 0, 0, 1), log := f.log + [Got(last)]);
    ReachesMore(d, [] + Reads(front), f, Read(true, last), g);
    ReadsSnoc([], log, chunks);
    assert [] + Reads(chunks) == Reads(chunks);
    assert g == c.(log := log + Gots(chunks));
  }

  lemma ReloadAnswered(f: Client, data: string)
    requires f.phase == QueryingStatus && f.reloading && f.ops == Ops(0, 0, 1, 1)
    requires Append(f.msg, data).complete && IsApiResponse(Append(f.msg, data))
    ensures Good(f, Read(true, data),
                 f.(msg := FRESH, reloading := false, ops := Ops(0, 0, 0, 1), log := f.log + [Got(data)]))
  {
    var m, d := Append(f.msg, data), f.(ops := Ops(0, 0, 0, 1));
    ReceivedWhole(d, m, data);
    assert Step(f, Read(true, data)) == Received(d, m, data);
  }
}
