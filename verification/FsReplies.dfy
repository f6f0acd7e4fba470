/** What the answer to a command comes to, for every way of cutting it into chunks. */
module FsReplies {
  import opened Tokens
  import opened FsMessages
  import opened FsChunks

  const COMMAND: string := "command"
  const REPLY: string := "reply"
  const REPLY_START: string := CONTENT_TYPE + (COMMAND + SLASH)
  const REPLY_HEAD: string := CONTENT_TYPE + (COMMAND + SLASH + REPLY)

  const OK_BYTES: string := REPLY_HEAD + NEWLINE + "Reply-Text: +OK"
  const ERR_BYTES: string := REPLY_HEAD + NEWLINE + "Reply-Text: +ERR"

  /** The answer to a command, with this text. */
  function ReplyMessage(s: string): string { REPLY_HEAD + NEWLINE + (REPLY_TEXT + s + NEWLINE + NEWLINE) }

  /** The shortest run of leading chunks that goes beyond "Content-Type: command/", or all of them. */
  function Judged(chunks: seq<string>): string {
    if chunks == [] then ""
    else if |Flat(chunks[..|chunks| - 1])| > |REPLY_START| then Judged(chunks[..|chunks| - 1])
    else Flat(chunks)
  }

  lemma ReplyFacts()
    ensures |CONTENT_TYPE| == 14 && |REPLY_START| == 22 && |REPLY_HEAD| == 27 && |COMMAND| == 7 && |REPLY| == 5
    ensures REPLY_HEAD == REPLY_START + REPLY && Clean(REPLY_HEAD, NEWLINE) && Clean(REPLY_START, NEWLINE)
    ensures Clean(COMMAND, SLASH) && Clean(REPLY, SLASH) && CONTENT_TYPE[0] == 'C' && REPLY_TEXT[0] == 'R'
    ensures |REPLY_TEXT| == 12 && Clean(REPLY_TEXT, NEWLINE)
  {
  }

  // ---- before the answer is recognised ----

  lemma FewReplyParts(rest: string)
    requires Begins(rest, COMMAND + SLASH)
    ensures |Cut(rest, SLASH)| < 2
  {
    ReplyFacts();
    BeginsSplit(rest, COMMAND, SLASH);
    if rest != [] && |rest| <= |COMMAND| {
      CutLast(rest, SLASH);
    } else if rest != [] {
      assert rest == COMMAND + ['/'] + [];
      CutLine(COMMAND, '/', [], SLASH);
    }
  }

  lemma ReplyFragmentRefused(m: Msg, t: string)
    requires Begins(t, REPLY_START)
    ensures TypeLine(m, t) == (m, false)
  {
    if StartsWith(t, CONTENT_TYPE) {
      BeginsSplit(t, CONTENT_TYPE, COMMAND + SLASH);
      FewReplyParts(t[|CONTENT_TYPE|..]);
    }
  }

  lemma ReplyStaysBlank(m: Msg, data: string)
    requires Blank(m) && Begins(m.raw + data, REPLY_START)
    ensures Blank(Append(m, data)) && Append(m, data).raw == m.raw + data
  {
    var t := m.raw + data;
    var start := m.(raw := t);
    ReplyFacts();
    ReplyFragmentRefused(start, t);
    if t == [] {
      ParsedWhole(m, data, start);
    } else {
      assert Clean(t, NEWLINE);
      CutLast(t, NEWLINE);
      assert Lines(start, [t]) == (start, false);
      ParsedInPart(m, data, start);
    }
  }

  // ---- once it is recognised ----

  /** The first line has been taken for the type, wholly or in part: it is never taken again. */
  predicate Settled(m: Msg) {
    && m.category == Command && m.length == 0 && (m.kind == Reply || m.kind == UnknownKind)
    && Begins(CONTENT_TYPE, m.raw) && (m.complete <==> m.reply != Undefined)
    && (m.kind == UnknownKind ==> m.reply == Undefined)
  }

  lemma {:induction false} UnknownLines(m: Msg, lines: seq<string>)
    requires m.category == Command && m.kind == UnknownKind
    ensures Lines(m, lines) == (m, true)
    decreases lines
  {
    if lines != [] { UnknownLines(m, lines[1..]); }
  }

  lemma OtherStart(line: string, p: string)
    requires line != [] && p != [] && line[0] != p[0]
    ensures !StartsWith(line, p)
  {
    assert |p| <= |line| ==> line[..|p|][0] == line[0];
  }

  /** The first line of a text that begins like a type line is no reply text. */
  lemma FirstLineIsType(w: string) returns (line: string, rest: seq<string>)
    ensures Cut(CONTENT_TYPE + w, NEWLINE) == [line] + rest && !StartsWith(line, REPLY_TEXT)
  {
    ReplyFacts();
    var k := Run(w, NEWLINE);
    line, rest := CONTENT_TYPE + w[..k], Cut(w[k..], NEWLINE);
    assert CONTENT_TYPE + w == line + w[k..];
    assert Clean(CONTENT_TYPE, NEWLINE);
    CutPiece(line, w[k..], NEWLINE);
    OtherStart(line, REPLY_TEXT);
  }

  lemma ReplyRefused(m: Msg, line: string, rest: seq<string>)
    requires m.category == Command && m.kind == Reply && !StartsWith(line, REPLY_TEXT)
    ensures Lines(m, [line] + rest) == (m, false)
  {
  }

  /** Whatever follows, the verdict stands: an answer without one never completes. */
  lemma StaysSettled(m: Msg, data: string)
    requires Settled(m)
    ensures var r := Append(m, data); Settled(r) && r.reply == m.reply && r.complete == m.complete && r.kind == m.kind
  {
    var raw := m.raw + data;
    var after := m.(raw := raw);
    assert Begins(CONTENT_TYPE, raw) by { assert raw[..|CONTENT_TYPE|] == m.raw[..|CONTENT_TYPE|]; }
    if m.kind == UnknownKind {
      UnknownLines(after, Cut(raw, NEWLINE));
      ParsedWhole(m, data, after);
    } else {
      var line, rest := FirstLineIsType(raw[|CONTENT_TYPE|..]);
      assert raw == CONTENT_TYPE + raw[|CONTENT_TYPE|..];
      ReplyRefused(after, line, rest);
      ParsedInPart(m, data, after);
    }
  }

  lemma {:induction false} VerdictStands(m: Msg, later: seq<string>)
    requires Settled(m)
    ensures var r := AppendAll(m, later); Settled(r) && r.reply == m.reply && r.complete == m.complete
    decreases |later|
  {
    if later != [] {
      VerdictStands(m, later[..|later| - 1]);
      StaysSettled(AppendAll(m, later[..|later| - 1]), later[|later| - 1]);
    }
  }

  // ---- the chunk that settles it ----

  lemma PartOfReply(i: nat)
    requires 0 < i < |REPLY|
    ensures KindOf(REPLY[..i]) == UnknownKind && Clean(REPLY[..i], SLASH)
  {
    var s := REPLY[..i];
    assert |s| < 5 && |"reply"| == 5 && |"request"| == 7 && |"response"| == 8 && |"disconnect-notice"| == 17;
    assert forall k :: 0 <= k < i ==> s[k] == REPLY[k];
  }

  lemma CutReplyType(m: Msg, data: string)
    requires Blank(m) && Begins(m.raw + data, REPLY_HEAD) && |REPLY_START| < |m.raw + data| < |REPLY_HEAD|
    ensures var r := Append(m, data); Settled(r) && r.reply == Undefined && r.raw == m.raw + data
  {
    var t := m.raw + data;
    var start := m.(raw := t);
    ReplyFacts();
    BeginsSplit(t, REPLY_START, REPLY);
    var i := |t| - |REPLY_START|;
    PartOfReply(i);
    assert Clean(t, NEWLINE);
    CutLast(t, NEWLINE);
    assert t == CONTENT_TYPE + (COMMAND + SLASH + REPLY[..i]);
    Prefixed(CONTENT_TYPE, COMMAND + SLASH + REPLY[..i]);
    TwoParts(COMMAND, REPLY[..i]);
    assert TypeLine(start, t) == (start.(category := Command), false);
    assert Lines(start, [t]) == (start.(category := Command), false);
    ParsedInPart(m, data, start.(category := Command));
  }

  lemma ReplyTypeRead(m: Msg)
    ensures TypeLine(m, REPLY_HEAD) == (m.(category := Command, kind := Reply), true)
  {
    ReplyFacts();
    Prefixed(CONTENT_TYPE, COMMAND + SLASH + REPLY);
    TwoParts(COMMAND, REPLY);
  }

  /** The verdict in the second line, told by its first bytes. */
  lemma Verdict(m: Msg, q: string)
    requires m.category == Command && m.kind == Reply && m.reply == Undefined
    ensures var (n, ok) := Line(m, q);
      && n == m.(replyText := n.replyText, reply := n.reply)
      && (n.reply == OkReply <==> Begins("Reply-Text: +OK", q))
      && (n.reply == ErrReply <==> Begins("Reply-Text: +ERR", q))
      && (ok <==> n.reply != Undefined)
  {
    ReplyFacts();
    if StartsWith(q, REPLY_TEXT) {
      var s := q[|REPLY_TEXT|..];
      assert q == REPLY_TEXT + s;
      assert "Reply-Text: +OK" == REPLY_TEXT + "+OK" && "Reply-Text: +ERR" == REPLY_TEXT + "+ERR";
      SamePrefix(REPLY_TEXT, "+OK", s);
      SamePrefix(REPLY_TEXT, "+ERR", s);
      assert StartsWith(s, "+OK") ==> s[1] == 'O';
      assert StartsWith(s, "+ERR") ==> s[1] == 'E';
    } else {
      assert "Reply-Text: +OK" == REPLY_TEXT + "+OK" && "Reply-Text: +ERR" == REPLY_TEXT + "+ERR";
      PrefixPart(REPLY_TEXT, "+OK", q);
      PrefixPart(REPLY_TEXT, "+ERR", q);
    }
  }

  lemma SamePrefix(p: string, x: string, s: string)
    ensures Begins(p + x, p + s) <==> Begins(x, s)
  {
    if |x| <= |s| {
      assert (p + s)[..|p + x|] == p + s[..|x|];
      if p + x == p + s[..|x|] { assert x == (p + x)[|p|..] == s[..|x|]; }
    }
  }

  lemma PrefixPart(p: string, x: string, q: string)
    ensures Begins(p + x, q) ==> StartsWith(q, p)
  {
    assert |p + x| <= |q| ==> q[..|p|] == q[..|p + x|][..|p|];
    assert (p + x)[..|p|] == p;
  }

  /** A clean text begins the line that it begins. */
  lemma BeginsLine(x: string, q: string, tail: string)
    requires Clean(x, NEWLINE) && (tail == [] || tail[0] in NEWLINE)
    ensures Begins(x, q) <==> Begins(x, q + tail)
  {
    if |x| <= |q| {
      assert (q + tail)[..|x|] == q[..|x|];
    } else {
      assert tail != [] ==> (q + tail)[|q|] == tail[0];
      assert |x| <= |q + tail| ==> (q + tail)[..|x|][|q|] == (q + tail)[|q|];
    }
  }

  /** The lines of an answer that has arrived as far as its second line. */
  lemma ReplyCut(t: string, q: string, tail: string)
    requires t == REPLY_HEAD + NEWLINE + (q + tail) && q != [] && Clean(q, NEWLINE)
    requires tail == [] || tail == NEWLINE || tail == NEWLINE + NEWLINE
    ensures Cut(t, NEWLINE) == [REPLY_HEAD, q]
  {
    ReplyFacts();
    CutLine(REPLY_HEAD, '\n', q + tail, NEWLINE);
    assert REPLY_HEAD + ['\n'] + (q + tail) == t;
    CutPiece(q, tail, NEWLINE);
    BlankCut(tail);
    assert [REPLY_HEAD] + ([q] + []) == [REPLY_HEAD, q];
  }

  lemma BlankCut(tail: string)
    requires tail == [] || tail == NEWLINE || tail == NEWLINE + NEWLINE
    ensures Cut(tail, NEWLINE) == []
  {
    if tail != [] {
      assert tail[1..] == [] || tail[1..] == NEWLINE;
      assert NEWLINE[1..] == [];
    }
  }

  /** What the text read so far says. */
  ghost predicate Says(r: Msg, t: string) {
    && Settled(r) && r.raw == t
    && (r.reply == OkReply <==> Begins(OK_BYTES, t)) && (r.reply == ErrReply <==> Begins(ERR_BYTES, t))
  }

  lemma SecondLineSays(m: Msg, data: string, q: string, tail: string)
    requires Blank(m) && m.raw + data == REPLY_HEAD + NEWLINE + (q + tail) && q != [] && Clean(q, NEWLINE)
    requires tail == [] || tail == NEWLINE || tail == NEWLINE + NEWLINE
    ensures Says(Append(m, data), m.raw + data)
  {
    var t := m.raw + data;
    var start := m.(raw := t);
    var m1 := start.(category := Command, kind := Reply);
    ReplyTypeRead(start);
    ReplyCut(t, q, tail);
    Verdict(m1, q);
    LastLine(m1, q);
    assert [REPLY_HEAD, q][1..] == [q];
    var (n, ok) := Line(m1, q);
    if ok { ParsedWhole(m, data, n); } else { ParsedInPart(m, data, n); }
    BytesSay(t, q, tail);
    assert Begins(CONTENT_TYPE, t) by { HeadFirst(t); }
  }

  lemma HeadFirst(t: string)
    requires Begins(REPLY_HEAD, t)
    ensures Begins(CONTENT_TYPE, t)
  {
    PrefixPart(CONTENT_TYPE, COMMAND + SLASH + REPLY, t);
  }

  lemma BytesSay(t: string, q: string, tail: string)
    requires t == REPLY_HEAD + NEWLINE + (q + tail) && (tail == [] || tail[0] in NEWLINE)
    ensures Begins(REPLY_HEAD, t)
    ensures Begins("Reply-Text: +OK", q) <==> Begins(OK_BYTES, t)
    ensures Begins("Reply-Text: +ERR", q) <==> Begins(ERR_BYTES, t)
  {
    var ok, err := "Reply-Text: +OK", "Reply-Text: +ERR";
    assert Clean(ok, NEWLINE) && Clean(err, NEWLINE);
    BeginsLine(ok, q, tail);
    BeginsLine(err, q, tail);
    SamePrefix(REPLY_HEAD + NEWLINE, ok, q + tail);
    SamePrefix(REPLY_HEAD + NEWLINE, err, q + tail);
    assert t[..|REPLY_HEAD|] == REPLY_HEAD;
  }

  lemma FirstLineSays(m: Msg, data: string)
    requires Blank(m) && (m.raw + data == REPLY_HEAD || m.raw + data == REPLY_HEAD + NEWLINE)
    ensures Says(Append(m, data), m.raw + data)
  {
    var t := m.raw + data;
    var start := m.(raw := t);
    var m1 := start.(category := Command, kind := Reply);
    ReplyFacts();
    ReplyTypeRead(start);
    assert Cut(t, NEWLINE) == [REPLY_HEAD] by {
      var tail := t[|REPLY_HEAD|..];
      assert t == REPLY_HEAD + tail && (tail == [] || tail == NEWLINE);
      CutPiece(REPLY_HEAD, tail, NEWLINE);
      BlankCut(tail);
    }
    OneLine(start, REPLY_HEAD, m1);
    ParsedWhole(m, data, m1);
    assert t[..|REPLY_HEAD|] == REPLY_HEAD;
    HeadFirst(t);
  }

  /** The chunk with which the leading ones go beyond "Content-Type: command/". */
  lemma Settles(m: Msg, data: string, s: string)
    requires Blank(m) && Clean(s, NEWLINE) && Begins(m.raw + data, ReplyMessage(s)) && |m.raw + data| > |REPLY_START|
    ensures Says(Append(m, data), m.raw + data)
  {
    var t := m.raw + data;
    var line := REPLY_TEXT + s;
    ReplyFacts();
    var rest := line + (NEWLINE + NEWLINE);
    assert ReplyMessage(s) == REPLY_HEAD + (NEWLINE + rest);
    assert ReplyMessage(s) == REPLY_HEAD + NEWLINE + rest;
    BeginsSplit(t, REPLY_HEAD, NEWLINE + rest);
    if |t| < |REPLY_HEAD| {
      CutReplyType(m, data);
    } else if |t| <= |REPLY_HEAD| + 1 {
      assert t == REPLY_HEAD || t == REPLY_HEAD + NEWLINE;
      FirstLineSays(m, data);
    } else {
      BeginsSplit(t, REPLY_HEAD + NEWLINE, rest);
      var v := t[|REPLY_HEAD + NEWLINE|..];
      var q, tail := ArrivedLine(v, line);
      SecondLineSays(m, data, q, tail);
    }
  }

  lemma ArrivedLine(v: string, line: string) returns (q: string, tail: string)
    requires v != [] && line != [] && Clean(line, NEWLINE) && Begins(v, line + (NEWLINE + NEWLINE))
    ensures v == q + tail && q != [] && Clean(q, NEWLINE)
    ensures tail == [] || tail == NEWLINE || tail == NEWLINE + NEWLINE
  {
    BeginsSplit(v, line, NEWLINE + NEWLINE);
    var k := if |v| <= |line| then |v| else |line|;
    q, tail := v[..k], v[k..];
  }

  // ---- every chunking ----

  lemma {:induction false} ReplyProgress(chunks: seq<string>, s: string)
    requires Clean(s, NEWLINE) && Begins(Flat(chunks), ReplyMessage(s))
    ensures var m := AppendAll(FRESH, chunks);
      if |Flat(chunks)| <= |REPLY_START| then Blank(m) && m.raw == Flat(chunks)
      else
        && Settled(m)
        && (m.reply == OkReply <==> Begins(OK_BYTES, Judged(chunks)))
        && (m.reply == ErrReply <==> Begins(ERR_BYTES, Judged(chunks)))
  {
    if chunks != [] {
      var front, data := chunks[..|chunks| - 1], chunks[|chunks| - 1];
      var m, was := AppendAll(FRESH, front), Flat(front);
      BeginsMore(was, data, ReplyMessage(s));
      ReplyProgress(front, s);
      if |was| > |REPLY_START| {
        StaysSettled(m, data);
      } else if |was + data| > |REPLY_START| {
        Settles(m, data, s);
      } else {
        ReplyFacts();
        assert ReplyMessage(s) == REPLY_START + (REPLY + NEWLINE + (REPLY_TEXT + s + NEWLINE + NEWLINE));
        BeginsSplit(was + data, REPLY_START, REPLY + NEWLINE + (REPLY_TEXT + s + NEWLINE + NEWLINE));
        ReplyStaysBlank(m, data);
      }
    }
  }

  lemma {:induction false} JudgedBegins(chunks: seq<string>)
    ensures Begins(Judged(chunks), Flat(chunks))
  {
    if chunks != [] && |Flat(chunks[..|chunks| - 1])| > |REPLY_START| {
      JudgedBegins(chunks[..|chunks| - 1]);
    }
  }

  /** For every text and every way of cutting the answer into chunks: it counts as accepted exactly
      when the leading chunks that first go beyond "Content-Type: command/" hold the type line and
      "Reply-Text: +OK", as refused exactly when they hold "Reply-Text: +ERR" there, and it is
      complete in no other case. */
  lemma ReplyReadBack(chunks: seq<string>, s: string)
    requires Clean(s, NEWLINE) && Flat(chunks) == ReplyMessage(s)
    ensures var m := AppendAll(FRESH, chunks);
      && m.category == Command && (m.complete <==> m.reply != Undefined)
      && (m.reply == OkReply <==> StartsWith(s, "+OK") && |Judged(chunks)| >= |OK_BYTES|)
      && (m.reply == ErrReply <==> StartsWith(s, "+ERR") && |Judged(chunks)| >= |ERR_BYTES|)
  {
    ReplyFacts();
    assert Begins(Flat(chunks), ReplyMessage(s));
    ReplyProgress(chunks, s);
    JudgedBegins(chunks);
    BytesOfText(Judged(chunks), s, "+OK", OK_BYTES);
    BytesOfText(Judged(chunks), s, "+ERR", ERR_BYTES);
  }

  lemma BytesOfText(t: string, s: string, x: string, bytes: string)
    requires Begins(t, ReplyMessage(s)) && Clean(x, NEWLINE) && bytes == REPLY_HEAD + NEWLINE + (REPLY_TEXT + x)
    ensures Begins(bytes, t) <==> StartsWith(s, x) && |t| >= |bytes|
  {
    var lead, tail := REPLY_HEAD + NEWLINE + REPLY_TEXT, NEWLINE + NEWLINE;
    var whole := ReplyMessage(s);
    assert whole == lead + (s + tail) && bytes == lead + x;
    BeginsLine(x, s, tail);
    SamePrefix(lead, x, s + tail);
    assert |t| >= |bytes| ==> t[..|bytes|] == whole[..|bytes|];
  }

  lemma NoVerdict(t: string, s: string)
    requires Begins(t, ReplyMessage(s)) && !StartsWith(s, "+OK") && !StartsWith(s, "+ERR")
    ensures !Begins(OK_BYTES, t) && !Begins(ERR_BYTES, t)
  {
    assert Clean("+OK", NEWLINE) && Clean("+ERR", NEWLINE);
    BytesOfText(t, s, "+OK", OK_BYTES);
    BytesOfText(t, s, "+ERR", ERR_BYTES);
  }

  /** An answer of any other text never completes, whatever follows it. */
  lemma OtherReplyWaits(chunks: seq<string>, s: string, later: seq<string>)
    requires Clean(s, NEWLINE) && Flat(chunks) == ReplyMessage(s)
    requires !StartsWith(s, "+OK") && !StartsWith(s, "+ERR")
    ensures var m := AppendAll(AppendAll(FRESH, chunks), later); !m.complete && m.reply == Undefined
  {
    ReplyFacts();
    assert Begins(Flat(chunks), ReplyMessage(s));
    ReplyReadBack(chunks, s);
    ReplyProgress(chunks, s);
    VerdictStands(AppendAll(FRESH, chunks), later);
  }
}
