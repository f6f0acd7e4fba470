/** Whole conversations with a media server: from the first start to regular queries, and one
    query from end to end. */
module EventQueries {
  import opened Options
  import opened Decimal
  import opened Tokens
  import opened FsMessages
  import opened FsChunks
  import opened FsReplies
  import opened FsEvidence
  import opened FsReader
  import opened EventSocket

  // ---- runs made step by step ----

  predicate Good(c: Client, e: Event, d: Client) { Legal(c, e) && e != ReloadXml && Step(c, e) == d }

  ghost predicate Path(states: seq<Client>, es: seq<Event>, c: Client, d: Client) {
    && |states| == |es| + 1 && states[0] == c && states[|es|] == d
    && forall i :: 0 <= i < |es| ==> Good(states[i], es[i], states[i + 1])
  }

  ghost predicate Reaches(c: Client, es: seq<Event>, d: Client) { exists states :: Path(states, es, c, d) }

  lemma ReachesNone(c: Client)
    ensures Reaches(c, [], c)
  {
    assert Path([c], [], c, c);
  }

  lemma ReachesMore(c: Client, es: seq<Event>, d: Client, e: Event, f: Client)
    requires Reaches(c, es, d) && Good(d, e, f)
    ensures Reaches(c, es + [e], f)
  {
    var states :| Path(states, es, c, d);
    assert Path(states + [f], es + [e], c, f);
  }

  lemma ReachesIsExec(c: Client, es: seq<Event>, d: Client)
    requires Reaches(c, es, d)
    ensures LegalRun(c, es) && Exec(c, es) == d
  {
    var states :| Path(states, es, c, d);
    PathIsExec(states, es, c, d);
  }

  lemma {:induction false} PathIsExec(states: seq<Client>, es: seq<Event>, c: Client, d: Client)
    requires Path(states, es, c, d)
    ensures LegalRun(c, es) && Exec(c, es) == d
    decreases es
  {
    if es != [] {
      assert Good(states[0], es[0], states[1]);
      forall i | 0 <= i < |es| - 1 ensures Good(states[1..][i], es[1..][i], states[1..][i + 1]) {
        assert Good(states[i + 1], es[i + 1], states[i + 2]);
      }
      PathIsExec(states[1..], es[1..], states[1], d);
    }
  }

  // ---- reading a message in chunks ----

  function Reads(chunks: seq<string>): seq<Event> {
    seq(|chunks|, i requires 0 <= i < |chunks| => Read(true, chunks[i]))
  }

  function Gots(chunks: seq<string>): seq<Mark> {
    seq(|chunks|, i requires 0 <= i < |chunks| => Got(chunks[i]))
  }

  lemma ReadsSnoc(es: seq<Event>, log: seq<Mark>, chunks: seq<string>)
    requires chunks != []
    ensures es + Reads(chunks[..|chunks| - 1]) + [Read(true, chunks[|chunks| - 1])] == es + Reads(chunks)
    ensures log + Gots(chunks[..|chunks| - 1]) + [Got(chunks[|chunks| - 1])] == log + Gots(chunks)
  {
  }

  lemma FrontSlice<T>(s: seq<T>, k: nat)
    requires k < |s|
    ensures s[..|s| - 1][..k] == s[..k]
  {
  }

  /** None of these chunks completes the message. */
  ghost predicate Open(m: Msg, chunks: seq<string>) {
    forall k :: 0 < k <= |chunks| ==> !AppendAll(m, chunks[..k]).complete
  }

  /** None but perhaps the last does. */
  ghost predicate OpenBefore(m: Msg, chunks: seq<string>) {
    forall k :: 0 <= k < |chunks| ==> !AppendAll(m, chunks[..k]).complete
  }

  lemma PartialRead(c: Client, data: string)
    requires c.ops.receives == 1 && !Append(c.msg, data).complete
    ensures Good(c, Read(true, data), c.(msg := Append(c.msg, data), log := c.log + [Got(data)]))
  {
  }

  /** Chunks that do not complete the message only add to it. */
  lemma {:induction false} PartialReads(c: Client, es: seq<Event>, d: Client, chunks: seq<string>)
    requires Reaches(c, es, d) && d.ops.receives == 1 && Open(d.msg, chunks)
    ensures Reaches(c, es + Reads(chunks), d.(msg := AppendAll(d.msg, chunks), log := d.log + Gots(chunks)))
    decreases |chunks|
  {
    if chunks == [] {
      assert es + Reads(chunks) == es && d.log + Gots(chunks) == d.log;
    } else {
      var front, data := chunks[..|chunks| - 1], chunks[|chunks| - 1];
      forall k | 0 < k <= |front| ensures !AppendAll(d.msg, front[..k]).complete { FrontSlice(chunks, k); }
      assert Open(d.msg, front);
      PartialReads(c, es, d, front);
      var f := d.(msg := AppendAll(d.msg, front), log := d.log + Gots(front));
      var g := d.(msg := AppendAll(d.msg, chunks), log := d.log + Gots(chunks));
      assert chunks[..|chunks|] == chunks;
      ReadsSnoc(es, d.log, chunks);
      PartialRead(f, data);
      ReachesMore(c, es + Reads(front), f, Read(true, data), g);
    }
  }

  // ---- one regular query ----

  /** The text of a status answer: its fourth and fifth lines start with the two session counts. */
  predicate ShowsCounts(lines: seq<string>, current: nat, max: nat, after: string, afterMax: string) {
    && (forall i :: 0 <= i < |lines| ==> lines[i] != [] && Clean(lines[i], NEWLINE))
    && |lines| >= 5 && current < WORD && max < WORD
    && lines[3] == Plain(current) + after && (after == [] || after[0] == ' ')
    && lines[4] == Plain(max) + afterMax && (afterMax == [] || afterMax[0] == ' ')
  }

  /** The message `body` with its header, cut into non-empty chunks so that it is reproduced. */
  predicate Sent(body: string, chunks: seq<string>) {
    && 0 < |body| < WORD && Flat(chunks) == Header(|body|) + body
    && (forall i :: 0 <= i < |chunks| ==> chunks[i] != [])
    && WellCut(|body|, Decisive(chunks))
  }

  function Answered(c: Client, log: seq<Mark>, current: nat, max: nat): Client {
    c.(msg := FRESH, current := current, max := max, disconnected := false, ops := Ops(0, 0, 0, 1), log := log)
  }

  /** A message from which `c` reads these session counts. */
  predicate Answers(m: Msg, c: Client, current: nat, max: nat) {
    m.complete && IsApiResponse(m) && ReadStatus(m.content, c.current, c.max) == (true, current, max)
  }

  lemma LastRead(c: Client, data: string, current: nat, max: nat)
    requires c.ops == Ops(0, 0, 1, 0) && c.phase == QueryingStatus && !c.reloading
    requires Answers(Append(c.msg, data), c, current, max)
    ensures Good(c, Read(true, data), Answered(c, c.log + [Got(data)], current, max))
  {
  }

  lemma AppendLast(m: Msg, chunks: seq<string>)
    requires chunks != []
    ensures AppendAll(m, chunks) == Append(AppendAll(m, chunks[..|chunks| - 1]), chunks[|chunks| - 1])
  {
  }

  lemma ChunksArrive(c: Client, es: seq<Event>, d: Client, chunks: seq<string>, current: nat, max: nat)
    requires Reaches(c, es, d) && d.ops == Ops(0, 0, 1, 0) && d.phase == QueryingStatus && !d.reloading && chunks != []
    requires OpenBefore(d.msg, chunks) && Answers(AppendAll(d.msg, chunks), d, current, max)
    ensures Reaches(c, es + Reads(chunks), Answered(d, d.log + Gots(chunks), current, max))
  {
    var front, last := chunks[..|chunks| - 1], chunks[|chunks| - 1];
    FrontOpen(d.msg, chunks);
    PartialReads(c, es, d, front);
    AppendLast(d.msg, chunks);
    var f := d.(msg := AppendAll(d.msg, front), log := d.log + Gots(front));
    LastChunk(c, es + Reads(front), f, last, current, max);
    ReadsSnoc(es, d.log, chunks);
    assert Answered(f, f.log + [Got(last)], current, max) == Answered(d, d.log + Gots(chunks), current, max);
  }

  lemma FrontOpen(m: Msg, chunks: seq<string>)
    requires chunks != [] && OpenBefore(m, chunks)
    ensures Open(m, chunks[..|chunks| - 1])
  {
    var front := chunks[..|chunks| - 1];
    forall k | 0 < k <= |front| ensures !AppendAll(m, front[..k]).complete { FrontSlice(chunks, k); }
  }

  lemma LastChunk(c: Client, es: seq<Event>, f: Client, last: string, current: nat, max: nat)
    requires Reaches(c, es, f) && f.ops == Ops(0, 0, 1, 0) && f.phase == QueryingStatus && !f.reloading
    requires Answers(Append(f.msg, last), f, current, max)
    ensures Reaches(c, es + [Read(true, last)], Answered(f, f.log + [Got(last)], current, max))
  {
    LastRead(f, last, current, max);
    ReachesMore(c, es, f, Read(true, last), Answered(f, f.log + [Got(last)], current, max));
  }

  lemma {:induction false} FlatSplit(chunks: seq<string>, k: nat) returns (later: string)
    requires k < |chunks| && forall i :: 0 <= i < |chunks| ==> chunks[i] != []
    ensures Flat(chunks) == Flat(chunks[..k]) + later && later != []
    decreases |chunks|
  {
    var front, last := chunks[..|chunks| - 1], chunks[|chunks| - 1];
    if k == |chunks| - 1 {
      later := last;
    } else {
      later := FlatSplit(front, k);
      FrontSlice(chunks, k);
      later := later + last;
    }
  }

  lemma {:induction false} DecisiveSame(chunks: seq<string>, k: nat)
    requires k <= |chunks| && |Flat(chunks[..k])| > |START|
    ensures Decisive(chunks[..k]) == Decisive(chunks)
    decreases |chunks|
  {
    if k == |chunks| {
      assert chunks[..k] == chunks;
    } else {
      var front := chunks[..|chunks| - 1];
      assert front[..k] == chunks[..k];
      DecisiveSame(front, k);
      FlatGrows(front, k);
    }
  }

  lemma {:induction false} FlatGrows(chunks: seq<string>, k: nat)
    requires k <= |chunks|
    ensures |Flat(chunks[..k])| <= |Flat(chunks)| && Begins(Flat(chunks[..k]), Flat(chunks))
    decreases |chunks|
  {
    if k == |chunks| {
      assert chunks[..k] == chunks;
    } else {
      var front := chunks[..|chunks| - 1];
      assert front[..k] == chunks[..k];
      FlatGrows(front, k);
    }
  }

  /** Before its last chunk the message is not complete. */
  lemma Unfinished(body: string, chunks: seq<string>, k: nat)
    requires Sent(body, chunks) && k < |chunks|
    ensures !AppendAll(FRESH, chunks[..k]).complete
  {
    FlatGrows(chunks, k);
    var later := FlatSplit(chunks, k);
    if |Flat(chunks[..k])| > |START| {
      DecisiveSame(chunks, k);
      CompletesAtEnd(chunks[..k], body);
    } else {
      RunProgress(chunks[..k], |body|, body);
    }
  }

  lemma Finished(body: string, chunks: seq<string>)
    requires Sent(body, chunks)
    ensures var m := AppendAll(FRESH, chunks); m.complete && IsApiResponse(m) && m.content == body
    ensures chunks != []
  {
    assert Begins(Flat(chunks), Flat(chunks));
    CompletesAtEnd(chunks, body);
  }

  /** A status answer while it is awaited. */
  lemma AnswerArrives(c: Client, es: seq<Event>, d: Client, lines: seq<string>, current: nat, max: nat,
                      after: string, afterMax: string, chunks: seq<string>)
    requires Reaches(c, es, d) && d.ops == Ops(0, 0, 1, 0) && d.phase == QueryingStatus && !d.reloading
      && d.msg == FRESH
    requires ShowsCounts(lines, current, max, after, afterMax) && Sent(Join(lines), chunks)
    ensures Reaches(c, es + Reads(chunks), Answered(d, d.log + Gots(chunks), current, max))
  {
    StatusReadBack(lines, current, max, after, afterMax, d.current, d.max);
    Finished(Join(lines), chunks);
    forall k | 0 <= k < |chunks| ensures !AppendAll(d.msg, chunks[..k]).complete { Unfinished(Join(lines), chunks, k); }
    ChunksArrive(c, es, d, chunks, current, max);
  }

  /** One regular query from end to end: however the answer is cut, as long as it is reproduced at
      all, the session counts become the ones the server printed, and the client is ready for the
      next query. */
  lemma StatusQuery(c: Client, lines: seq<string>, current: nat, max: nat, after: string, afterMax: string,
                    chunks: seq<string>)
    requires Inv(c) && c.phase == QueryingStatus && c.ops.timers == 1
    requires ShowsCounts(lines, current, max, after, afterMax) && Sent(Join(lines), chunks)
    ensures var es := [Timer(true)] + Reads(chunks);
      && LegalRun(c, es)
      && var d := Exec(c, es);
      && d.current == current && d.max == max && d.phase == QueryingStatus && !d.disconnected
      && d.ops == Ops(0, 0, 0, 1) && d.msg == FRESH
  {
    var asked := Step(c, Timer(true));
    assert asked.msg == FRESH && asked.ops == Ops(0, 0, 1, 0) && asked.phase == QueryingStatus;
    ReachesNone(c);
    ReachesMore(c, [], c, Timer(true), asked);
    assert [] + [Timer(true)] == [Timer(true)];
    AnswerArrives(c, [Timer(true)], asked, lines, current, max, after, afterMax, chunks);
    ReachesIsExec(c, [Timer(true)] + Reads(chunks), Answered(asked, asked.log + Gots(chunks), current, max));
  }

  // ---- from the first start to regular queries ----

  const REQUEST: string := "request"
  const GREETING: string := CONTENT_TYPE + (AUTH + SLASH + REQUEST) + NEWLINE + NEWLINE
  const TAB: string := "\t"
  const PROFILE: string := "profile"

  lemma TypeRead(m: Msg, a: string, b: string)
    requires a != [] && b != [] && Clean(a, SLASH) && Clean(b, SLASH)
    requires CategoryOf(a) != UnknownCategory && KindOf(b) != UnknownKind
    ensures TypeLine(m, CONTENT_TYPE + (a + SLASH + b)) == (m.(category := CategoryOf(a), kind := KindOf(b)), true)
  {
    Prefixed(CONTENT_TYPE, a + SLASH + b);
    TwoParts(a, b);
  }

  lemma GreetingRead()
    ensures var m := Append(FRESH, GREETING); m.complete && m.category == Auth && m.kind == Request
  {
    var line := CONTENT_TYPE + (AUTH + SLASH + REQUEST);
    var start := FRESH.(raw := GREETING);
    assert FRESH.raw + GREETING == GREETING;
    assert Clean(AUTH, SLASH) && Clean(REQUEST, SLASH);
    TypeRead(start, AUTH, REQUEST);
    var m := start.(category := Auth, kind := Request);
    GreetingCut(line);
    OneLine(start, line, m);
    ParsedWhole(FRESH, GREETING, m);
  }

  lemma GreetingCut(line: string)
    requires line == CONTENT_TYPE + (AUTH + SLASH + REQUEST)
    ensures Cut(GREETING, NEWLINE) == [line]
  {
    assert Clean(line, NEWLINE);
    CutLine(line, '\n', NEWLINE, NEWLINE);
    assert line + ['\n'] + NEWLINE == GREETING;
    assert NEWLINE[1..] == [] && Cut(NEWLINE, NEWLINE) == [];
  }

  /** The server's answer to the right password, with whatever words it adds. */
  function Accepted(words: string): string { ReplyMessage("+OK" + words) }

  lemma AcceptedRead(words: string)
    requires Clean(words, NEWLINE)
    ensures var m := Append(FRESH, Accepted(words)); m.complete && m.reply == OkReply && m.category == Command
  {
    var s, t := "+OK" + words, Accepted(words);
    Prefixed("+OK", words);
    assert [t][..0] == [] && Flat([]) == "" && "" + t == t;
    assert Flat([t]) == t && Judged([t]) == t;
    assert Clean("+OK", NEWLINE);
    assert |t| == |REPLY_HEAD| + 1 + (|REPLY_TEXT| + |s| + 2) && |OK_BYTES| == |REPLY_HEAD| + 1 + 15;
    ReplyReadBack([t], s);
    AppendLast(FRESH, [t]);
  }

  /** A line of the profile list, for a profile that is served at a contact. */
  function ProfileLine(contact: string): string { INTERNAL + TAB + (PROFILE + TAB + contact) }

  lemma ProfileLineRead(contact: string)
    requires contact != [] && Clean(contact, BLANKS)
    ensures ReadProfile([ProfileLine(contact)], INTERNAL) == ContactOf(contact)
  {
    assert Clean(INTERNAL, BLANKS) && Clean(PROFILE, BLANKS) && '\t' in BLANKS;
    CutLine(INTERNAL, '\t', PROFILE + TAB + contact, BLANKS);
    CutLine(PROFILE, '\t', contact, BLANKS);
    CutLast(contact, BLANKS);
    assert Cut(ProfileLine(contact), BLANKS) == [INTERNAL, PROFILE, contact];
  }

  /** A message in one chunk, header and all. */
  function Whole(lines: seq<string>): string { Header(|Join(lines)|) + Join(lines) }

  lemma WholeSent(lines: seq<string>)
    requires lines != [] && forall i :: 0 <= i < |lines| ==> lines[i] != [] && Clean(lines[i], NEWLINE)
    requires |Join(lines)| < WORD
    ensures Sent(Join(lines), [Whole(lines)])
  {
    var body := Join(lines);
    assert body[0] == lines[0][0];
    CutJoin(lines);
    JoinCut(body);
    OneChunk(Whole(lines));
    OneChunkSent(body, Whole(lines));
  }

  lemma OneChunkSent(body: string, t: string)
    requires 0 < |body| < WORD && WholeLines(body) && t == Header(|body|) + body && Flat([t]) == t && Decisive([t]) == t
    ensures Sent(body, [t])
  {
    Prefixed(Header(|body|), body);
  }

  lemma OneChunk(t: string)
    ensures Flat([t]) == t && Decisive([t]) == t
  {
    assert [t][..0] == [] && Flat([]) == "";
    assert "" + t == t;
  }

  lemma WholeRead(lines: seq<string>)
    requires lines != [] && forall i :: 0 <= i < |lines| ==> lines[i] != [] && Clean(lines[i], NEWLINE)
    requires |Join(lines)| < WORD
    ensures var m := Append(FRESH, Whole(lines)); m.complete && IsApiResponse(m) && Cut(m.content, NEWLINE) == lines
  {
    WholeSent(lines);
    Finished(Join(lines), [Whole(lines)]);
    AppendLast(FRESH, [Whole(lines)]);
    assert [Whole(lines)][..0] == [];
    CutJoin(lines);
  }

  /** A whole message in one read. */
  lemma WholeMessage(c: Client, data: string, m: Msg)
    requires c.ops == Ops(0, 0, 1, 0) && c.msg == FRESH && m == Append(FRESH, data) && m.complete && m.category != Text
    ensures Legal(c, Read(true, data))
    ensures Step(c, Read(true, data)) ==
      OnMessage(Record(c.(msg := m, ops := IDLE), Got(data)),
                ReadProfile(Cut(m.content, NEWLINE), INTERNAL), ReadStatus(m.content, c.current, c.max))
  {
    var d := c.(ops := c.ops.(receives := c.ops.receives - 1));
    assert d == c.(ops := IDLE);
    ReceivedWhole(d, m, data);
    assert OnRead(d, data) == Received(d, m, data);
  }

  lemma ReceivedWhole(c: Client, m: Msg, data: string)
    requires m.complete && m.category != Text
    ensures Received(c, m, data) ==
      OnMessage(Record(c.(msg := m), Got(data)),
                ReadProfile(Cut(m.content, NEWLINE), INTERNAL), ReadStatus(m.content, c.current, c.max))
  {
  }

  function Hello(contact: string, words: string): seq<Event> {
    [Resolve(true), Connect(true, false), Read(true, GREETING), Read(true, Accepted(words)),
        Read(true, Whole([ProfileLine(contact)]))]
  }

  lemma HelloIs(contact: string, words: string)
    ensures [Resolve(true)] + [Connect(true, false)] + [Read(true, GREETING)] + [Read(true, Accepted(words))]
      + [Read(true, Whole([ProfileLine(contact)]))] == Hello(contact, words)
  {
  }

  lemma Connects()
    ensures var c := Step(Step(Start(NEW), Resolve(true)), Connect(true, false));
      && Reaches(Start(NEW), [Resolve(true)] + [Connect(true, false)], c)
      && c.phase == WaitingForGreeting && c.msg == FRESH && c.ops == Ops(0, 0, 1, 0) && !c.reloading
  {
    var c0 := Start(NEW);
    var c1 := Step(c0, Resolve(true));
    ReachesNone(c0);
    ReachesMore(c0, [], c0, Resolve(true), c1);
    assert [] + [Resolve(true)] == [Resolve(true)];
    ReachesMore(c0, [Resolve(true)], c1, Connect(true, false), Step(c1, Connect(true, false)));
  }

  lemma GreetingTakes(c: Client)
    requires c.phase == WaitingForGreeting && c.msg == FRESH && c.ops == Ops(0, 0, 1, 0) && !c.reloading
    ensures Legal(c, Read(true, GREETING))
    ensures var d := Step(c, Read(true, GREETING));
      d.phase == Authenticating && d.msg == FRESH && d.ops == Ops(0, 0, 1, 0) && !d.reloading
  {
    GreetingRead();
    WholeMessage(c, GREETING, Append(FRESH, GREETING));
  }

  lemma PasswordTakes(c: Client, words: string)
    requires Clean(words, NEWLINE)
    requires c.phase == Authenticating && c.msg == FRESH && c.ops == Ops(0, 0, 1, 0) && !c.reloading
    ensures Legal(c, Read(true, Accepted(words)))
    ensures var d := Step(c, Read(true, Accepted(words)));
      d.phase == ObtainingConfiguration && d.msg == FRESH && d.ops == Ops(0, 0, 1, 0) && !d.reloading
  {
    AcceptedRead(words);
    WholeMessage(c, Accepted(words), Append(FRESH, Accepted(words)));
  }

  lemma LogsIn(es: seq<Event>, c: Client, words: string) returns (d: Client)
    requires Clean(words, NEWLINE) && Reaches(Start(NEW), es, c)
    requires c.phase == WaitingForGreeting && c.msg == FRESH && c.ops == Ops(0, 0, 1, 0) && !c.reloading
    ensures Reaches(Start(NEW), es + [Read(true, GREETING)] + [Read(true, Accepted(words))], d)
    ensures d.phase == ObtainingConfiguration && d.msg == FRESH && d.ops == Ops(0, 0, 1, 0) && !d.reloading
  {
    GreetingTakes(c);
    var b := Step(c, Read(true, GREETING));
    ReachesMore(Start(NEW), es, c, Read(true, GREETING), b);
    PasswordTakes(b, words);
    d := Step(b, Read(true, Accepted(words)));
    ReachesMore(Start(NEW), es + [Read(true, GREETING)], b, Read(true, Accepted(words)), d);
  }

  lemma ProfileFound(c: Client, contact: string, address: string, port: nat)
    requires c.phase == ObtainingConfiguration && c.msg == FRESH && c.ops == Ops(0, 0, 1, 0) && !c.reloading
    requires contact != [] && Clean(contact, BLANKS) && Clean(contact, NEWLINE)
      && ContactOf(contact) == Some((address, port))
    requires |Join([ProfileLine(contact)])| < WORD
    ensures var e := Read(true, Whole([ProfileLine(contact)]));
      && Legal(c, e)
      && var d := Step(c, e);
      && d.phase == QueryingStatus && d.address == address && d.port == port
      && d.msg == FRESH && d.ops == Ops(0, 0, 1, 0) && !d.reloading
  {
    var line := ProfileLine(contact);
    assert Clean(INTERNAL, NEWLINE) && Clean(PROFILE, NEWLINE) && Clean(TAB, NEWLINE);
    assert Clean(line, NEWLINE);
    WholeRead([line]);
    WholeMessage(c, Whole([line]), Append(FRESH, Whole([line])));
    ProfileLineRead(contact);
  }

  /** Every server that greets, accepts the password in whatever words and lists a contact for the profile is reached:
      the client comes to its regular queries with that address and port. */
  lemma ServerIsReached(contact: string, words: string, address: string, port: nat)
    requires contact != [] && Clean(contact, BLANKS) && Clean(contact, NEWLINE) && Clean(words, NEWLINE)
      && ContactOf(contact) == Some((address, port))
    requires |Join([ProfileLine(contact)])| < WORD
    ensures LegalRun(Start(NEW), Hello(contact, words))
      && Reaches(Start(NEW), Hello(contact, words), Exec(Start(NEW), Hello(contact, words)))
    ensures var c := Exec(Start(NEW), Hello(contact, words));
      && c.phase == QueryingStatus && c.address == address && c.port == port
      && c.ops == Ops(0, 0, 1, 0) && c.msg == FRESH && !c.reloading
  {
    Connects();
    var c := Step(Step(Start(NEW), Resolve(true)), Connect(true, false));
    var es := [Resolve(true)] + [Connect(true, false)];
    var d := LogsIn(es, c, words);
    ProfileFound(d, contact, address, port);
    var e := Read(true, Whole([ProfileLine(contact)]));
    var f := Step(d, e);
    ReachesMore(Start(NEW), es + [Read(true, GREETING)] + [Read(true, Accepted(words))], d, e, f);
    HelloIs(contact, words);
    ReachesIsExec(Start(NEW), Hello(contact, words), f);
  }

  /** And with the first status answer the regular queries begin. */
  lemma QueriesBegin(contact: string, words: string, address: string, port: nat, lines: seq<string>, current: nat,
                     max: nat, after: string, afterMax: string, chunks: seq<string>)
    requires contact != [] && Clean(contact, BLANKS) && Clean(contact, NEWLINE) && Clean(words, NEWLINE)
      && ContactOf(contact) == Some((address, port))
    requires |Join([ProfileLine(contact)])| < WORD
    requires ShowsCounts(lines, current, max, after, afterMax) && Sent(Join(lines), chunks)
    ensures var es := Hello(contact, words) + Reads(chunks);
      && LegalRun(Start(NEW), es)
      && var c := Exec(Start(NEW), es);
      Inv(c) && c.phase == QueryingStatus && c.ops.timers == 1 && c.current == current && c.max == max
  {
    ServerIsReached(contact, words, address, port);
    var c := Exec(Start(NEW), Hello(contact, words));
    AnswerArrives(Start(NEW), Hello(contact, words), c, lines, current, max, after, afterMax, chunks);
    var es, d := Hello(contact, words) + Reads(chunks), Answered(c, c.log + Gots(chunks), current, max);
    ReachesIsExec(Start(NEW), es, d);
    RunKeepsInv(es);
  }

  // ---- runs that do go wrong ----

  const SIP: string := "sip"
  const CONTACT_HERE: string := SIP + [':'] + ("u" + ['@'] + "h")

  lemma SomeContact()
    ensures CONTACT_HERE != [] && Clean(CONTACT_HERE, BLANKS) && Clean(CONTACT_HERE, NEWLINE)
    ensures ContactOf(CONTACT_HERE) == Some(("h", DEFAULT_PORT)) && |Join([ProfileLine(CONTACT_HERE)])| < WORD
  {
    BareContactReadBack(SIP, "u", "h");
    assert Join([ProfileLine(CONTACT_HERE)][1..]) == "";
    assert |ProfileLine(CONTACT_HERE)| == 8 + 1 + (7 + 1 + 7);
  }

  /** A reload while the first status answer is awaited leaves two operations under way. */
  lemma OverlapHappens()
    ensures LegalRun(Start(NEW), Hello(CONTACT_HERE, ""))
    ensures Total(Step(Exec(Start(NEW), Hello(CONTACT_HERE, "")), ReloadXml).ops) == 2
  {
    SomeContact();
    ServerIsReached(CONTACT_HERE, "", "h", DEFAULT_PORT);
  }

  /** After a failed resolution and its timer nothing is under way. */
  lemma StallHappens()
    ensures LegalRun(Start(NEW), [Resolve(false), Timer(true)])
    ensures Exec(Start(NEW), [Resolve(false), Timer(true)]).ops == IDLE
  {
    var c0 := Start(NEW);
    var c1 := Step(c0, Resolve(false));
    var c2 := Step(c1, Timer(true));
    ReachesNone(c0);
    ReachesMore(c0, [], c0, Resolve(false), c1);
    ReachesMore(c0, [] + [Resolve(false)], c1, Timer(true), c2);
    assert [] + [Resolve(false)] + [Timer(true)] == [Resolve(false), Timer(true)];
    ReachesIsExec(c0, [Resolve(false), Timer(true)], c2);
  }
}
