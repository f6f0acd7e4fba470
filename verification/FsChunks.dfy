/** What an api response comes to, for every way of cutting it into chunks. */
module FsChunks {
  import opened Decimal
  import opened Tokens
  import opened FsMessages

  /** Up to here a message is read afresh with every chunk. */
  const START: string := CONTENT_TYPE + API + SLASH

  predicate Begins(t: string, whole: string) { |t| <= |whole| && whole[..|t|] == t }

  /** The shortest run of leading chunks that goes beyond `START`, or all of them. */
  function Decisive(chunks: seq<string>): string {
    if chunks == [] then ""
    else if |Flat(chunks[..|chunks| - 1])| > |START| then Decisive(chunks[..|chunks| - 1])
    else Flat(chunks)
  }

  // ---- pieces of text ----

  lemma TypeFacts()
    ensures |START| == 18 && |TYPE_LINE| == 26 && TYPE_LINE == START + RESPONSE && TYPE_LINE[8] == 'T'
    ensures |CONTENT_LENGTH| == 16 && CONTENT_LENGTH[8] == 'L' && |API| == 3 && |RESPONSE| == 8
    ensures Clean(START, NEWLINE) && Clean(TYPE_LINE, NEWLINE) && Clean(CONTENT_LENGTH, NEWLINE)
    ensures Clean(API, SLASH) && Clean(RESPONSE, SLASH)
  {
  }

  lemma BeginsSplit(t: string, a: string, b: string)
    requires Begins(t, a + b)
    ensures |t| <= |a| ==> t == a[..|t|]
    ensures |t| >= |a| ==> t == a + b[..|t| - |a|] && Begins(t[|a|..], b)
  {
    if |t| >= |a| {
      assert t == (a + b)[..|t|] == a + b[..|t| - |a|];
      assert t[|a|..] == b[..|t| - |a|];
    }
  }

  lemma BeginsMore(t: string, data: string, whole: string)
    requires Begins(t + data, whole)
    ensures Begins(t, whole)
  {
    assert whole[..|t|] == (t + data)[..|t|] == t;
  }

  /** The message, piece by piece. */
  lemma Pieces(n: nat, body: string)
    ensures Header(n) + body == TYPE_LINE + (NEWLINE + (CONTENT_LENGTH + (Plain(n) + (NEWLINE + NEWLINE + body))))
    ensures |Header(n)| == |TYPE_LINE| + 1 + |CONTENT_LENGTH| + |Plain(n)| + 2
  {
  }

  /** A proper beginning of a number's digits is the digits of a smaller number. */
  lemma {:induction false} DigitsBegin(n: nat, k: nat) returns (m: nat)
    requires n > 0 && 0 < k <= |Plain(n)|
    ensures 0 < m <= n && Plain(n)[..k] == Plain(m)
    decreases n
  {
    if k == |Plain(n)| {
      m := n;
    } else {
      assert Plain(n) == Plain(n / 10) + [DigitChar(n % 10)];
      m := DigitsBegin(n / 10, k);
      assert Plain(n)[..k] == Plain(n / 10)[..k];
    }
  }

  // ---- before the message is recognised ----

  predicate Blank(m: Msg) {
    && m.category == UnknownCategory && m.kind == UnknownKind && m.reply == Undefined
    && m.length == 0 && m.content == "" && !m.complete
  }

  /** A fragment that stops before the type is refused and changes nothing. */
  lemma FragmentRefused(m: Msg, t: string)
    requires Begins(t, START)
    ensures TypeLine(m, t) == (m, false)
  {
    TypeFacts();
    if StartsWith(t, CONTENT_TYPE) {
      var rest := t[|CONTENT_TYPE|..];
      assert START == CONTENT_TYPE + (API + SLASH);
      BeginsSplit(t, CONTENT_TYPE, API + SLASH);
      FewParts(rest);
    }
  }

  lemma FewParts(rest: string)
    requires Begins(rest, API + SLASH)
    ensures |Cut(rest, SLASH)| < 2
  {
    TypeFacts();
    BeginsSplit(rest, API, SLASH);
    if rest != [] && |rest| <= |API| {
      CutLast(rest, SLASH);
    } else if rest != [] {
      assert rest == API + ['/'] + [];
      CutLine(API, '/', [], SLASH);
    }
  }

  lemma StaysBlank(m: Msg, data: string)
    requires Blank(m) && Begins(m.raw + data, START)
    ensures Blank(Append(m, data)) && Append(m, data).raw == m.raw + data
  {
    var t := m.raw + data;
    var start := m.(raw := t);
    TypeFacts();
    FragmentRefused(start, t);
    if t == [] {
      ParsedWhole(m, data, start);
    } else {
      assert Clean(t, NEWLINE);
      CutLast(t, NEWLINE);
      assert Lines(start, [t]) == (start, false);
      ParsedInPart(m, data, start);
    }
  }

  // ---- a type that is cut ----

  /** The category is known but not the type: nothing that follows is looked at. */
  predicate Deaf(m: Msg) {
    m.category == Api && m.kind == UnknownKind && m.length == 0 && m.content == "" && !m.complete
  }

  lemma {:induction false} DeafLines(m: Msg, lines: seq<string>)
    requires Deaf(m)
    ensures Lines(m, lines) == (m, true)
    decreases lines
  {
    if lines != [] { DeafLines(m, lines[1..]); }
  }

  lemma StaysDeaf(m: Msg, data: string)
    requires Deaf(m)
    ensures Deaf(Append(m, data))
  {
    var start := m.(raw := m.raw + data);
    DeafLines(start, Cut(start.raw, NEWLINE));
    ParsedWhole(m, data, start);
  }

  lemma PartOfResponse(i: nat)
    requires 0 < i < |RESPONSE|
    ensures KindOf(RESPONSE[..i]) == UnknownKind && Clean(RESPONSE[..i], SLASH)
  {
    var s := RESPONSE[..i];
    TypeFacts();
    assert RESPONSE[2] == 's' && "reply"[2] == 'p' && "request"[2] == 'q' && "disconnect-notice"[0] == 'd'
        && RESPONSE[0] == 'r';
    assert forall k :: 0 <= k < i ==> s[k] == RESPONSE[k];
  }

  lemma CutTypeDeafens(m: Msg, data: string)
    requires Blank(m) && Begins(m.raw + data, TYPE_LINE) && |START| < |m.raw + data| < |TYPE_LINE|
    ensures Deaf(Append(m, data))
  {
    var t := m.raw + data;
    var start := m.(raw := t);
    TypeFacts();
    BeginsSplit(t, START, RESPONSE);
    var i := |t| - |START|;
    PartOfResponse(i);
    assert Clean(t, NEWLINE);
    CutLast(t, NEWLINE);
    assert t == CONTENT_TYPE + (API + SLASH + RESPONSE[..i]);
    Prefixed(CONTENT_TYPE, API + SLASH + RESPONSE[..i]);
    TwoParts(API, RESPONSE[..i]);
    assert TypeLine(start, t) == (start.(category := Api), false);
    assert Lines(start, [t]) == (start.(category := Api), false);
    ParsedInPart(m, data, start.(category := Api));
  }

  // ---- a length that is not reached ----

  /** The message is recognised but its length not read: its type line is now refused for ever. */
  predicate Unread(m: Msg) {
    && m.category == Api && m.kind == Response && m.length == 0 && m.content == "" && !m.complete
    && Begins(TYPE_LINE, m.raw)
  }

  lemma NoLengthLine(line: string)
    requires Begins(TYPE_LINE, line)
    ensures !StartsWith(line, CONTENT_LENGTH)
  {
    TypeFacts();
    assert line[8] == line[..|TYPE_LINE|][8] == TYPE_LINE[8];
    if |CONTENT_LENGTH| <= |line| { assert line[..|CONTENT_LENGTH|][8] == line[8]; }
  }

  /** The first line of a text that begins with the type line begins with it too. */
  lemma FirstLine(w: string) returns (line: string, rest: seq<string>)
    ensures Cut(TYPE_LINE + w, NEWLINE) == [line] + rest && Begins(TYPE_LINE, line)
  {
    TypeFacts();
    var k := Run(w, NEWLINE);
    line, rest := TYPE_LINE + w[..k], Cut(w[k..], NEWLINE);
    assert TYPE_LINE + w == line + w[k..];
    CutPiece(line, w[k..], NEWLINE);
  }

  lemma StaysUnread(m: Msg, data: string)
    requires Unread(m)
    ensures Unread(Append(m, data))
  {
    var raw := m.raw + data;
    var w := raw[|TYPE_LINE|..];
    assert raw == TYPE_LINE + w;
    var line, rest := FirstLine(w);
    NoLengthLine(line);
    var after := m.(raw := raw);
    Refused(after, line, rest);
    ParsedInPart(m, data, after);
  }

  /** After the type line: nothing, a newline, or part of the words before the length. */
  lemma EarlyCutUnread(m: Msg, data: string, w: string)
    requires Blank(m) && m.raw + data == TYPE_LINE + w && Begins(w, NEWLINE + CONTENT_LENGTH)
    ensures Unread(Append(m, data))
  {
    var raw := m.raw + data;
    var start := m.(raw := raw);
    var m1 := start.(category := Api, kind := Response);
    TypeFacts();
    TypeAccepted(start);
    BeginsSplit(w, NEWLINE, CONTENT_LENGTH);
    CutPiece(TYPE_LINE, w, NEWLINE);
    var q := if w == [] then [] else w[1..];
    RestOfLine(w, q);
    if q == [] {
      OneLine(start, TYPE_LINE, m1);
      ParsedWhole(m, data, m1);
    } else {
      CutLast(q, NEWLINE);
      assert [TYPE_LINE] + [q] == [TYPE_LINE, q];
      LengthWords(m1, q);
      assert Lines(m1, [TYPE_LINE, q][1..]) == Line(m1, q) by { LastLine(m1, q); }
      var ok := Line(m1, q).1;
      if ok { ParsedWhole(m, data, m1); } else { ParsedInPart(m, data, m1); }
    }
  }

  lemma LastLine(m: Msg, q: string)
    ensures Lines(m, [q]) == Line(m, q)
  {
    var (n, ok) := Line(m, q);
    assert Lines(n, [q][1..]) == (n, true);
  }

  lemma RestOfLine(w: string, q: string)
    requires Begins(w, NEWLINE + CONTENT_LENGTH) && q == if w == [] then [] else w[1..]
    ensures Begins(q, CONTENT_LENGTH) && Clean(q, NEWLINE) && Cut(w, NEWLINE) == Cut(q, NEWLINE)
  {
    TypeFacts();
    BeginsSplit(w, NEWLINE, CONTENT_LENGTH);
    if w != [] { assert w[0] == '\n' && q == CONTENT_LENGTH[..|q|]; }
  }

  /** The words before the length, complete or not, leave the length at 0. */
  lemma LengthWords(m: Msg, q: string)
    requires m.category == Api && m.kind == Response && m.length == 0 && Begins(q, CONTENT_LENGTH)
    ensures Line(m, q).0 == m
  {
    if |q| == |CONTENT_LENGTH| { assert q[|CONTENT_LENGTH|..] == []; }
  }

  // ---- a length that is cut, and a whole header ----

  /** With a length in hand every later chunk is content. */
  lemma Grows(m: Msg, data: string)
    requires m.length > 0
    ensures var r := Append(m, data);
      && r.length == m.length && r.content == m.content + data && r.category == m.category && r.kind == m.kind
      && (r.complete <==> m.complete || Finished(m.(content := m.content + data)))
  {
  }

  /** The first chunks stop within the digits of the length or the newlines after it. */
  lemma CutLengthRead(m: Msg, data: string, k: nat, tail: string)
    requires Blank(m) && 0 < k < WORD && (tail == [] || tail == NEWLINE)
    requires m.raw + data == TYPE_LINE + NEWLINE + (CONTENT_LENGTH + Plain(k) + tail)
    ensures var r := Append(m, data); r.length == k && r.content == ""
  {
    var raw, line := m.raw + data, CONTENT_LENGTH + Plain(k);
    var start := m.(raw := raw);
    TypeFacts();
    DigitsClean(k);
    CutLine(TYPE_LINE, '\n', line + tail, NEWLINE);
    assert TYPE_LINE + ['\n'] + (line + tail) == raw;
    CutPiece(line, tail, NEWLINE);
    assert Cut(tail, NEWLINE) == [] by { if tail != [] { assert tail[1..] == []; } }
    assert [TYPE_LINE] + ([line] + []) == [TYPE_LINE, line] + [];
    HeaderLines(start, k, []);
    ParsedWhole(m, data, start.(category := Api, kind := Response, length := k, content := Join([])));
  }

  /** After leading chunks that hold the whole header, the content is what the rest of them gives
      when cut into lines. */
  lemma HeaderRead(m: Msg, data: string, n: nat, p: string)
    requires Blank(m) && 0 < n < WORD && m.raw + data == Header(n) + p
    ensures var r := Append(m, data);
      && r.category == Api && r.kind == Response && r.length == n
      && r.content == Join(Cut(p, NEWLINE)) && (r.complete <==> |r.content| == n)
  {
    var raw := m.raw + data;
    HeaderCut(n, p);
    var lines := Cut(p, NEWLINE);
    HeaderLines(m.(raw := raw), n, lines);
    ParsedWhole(m, data, m.(raw := raw, category := Api, kind := Response, length := n, content := Join(lines)));
  }

  // ---- every chunking ----

  /** What the message is after chunks that make up `whole`, the decisive ones being `t`. */
  predicate Progress(m: Msg, t: string, whole: string, n: nat) {
    if |whole| <= |START| then Blank(m) && m.raw == whole
    else if |t| < |TYPE_LINE| then Deaf(m)
    else if |t| <= |TYPE_LINE| + 1 + |CONTENT_LENGTH| then Unread(m)
    else
      && m.length > 0 && |t| <= |whole|
      && if |t| < |Header(n)| then m.content == whole[|t|..]
         else
           var p := t[|Header(n)|..];
           && m.length == n && m.category == Api && m.kind == Response
           && m.content == Join(Cut(p, NEWLINE)) + whole[|t|..]
           && (WholeLines(p) ==> (m.complete <==> |m.content| == n))
  }

  /** The chunk that makes the decisive text. */
  lemma Enters(m: Msg, data: string, n: nat, body: string)
    requires Blank(m) && 0 < n < WORD && Begins(m.raw + data, Header(n) + body) && |m.raw + data| > |START|
    ensures Progress(Append(m, data), m.raw + data, m.raw + data, n)
  {
    var t := m.raw + data;
    TypeFacts();
    Pieces(n, body);
    var after := CONTENT_LENGTH + (Plain(n) + (NEWLINE + NEWLINE + body));
    BeginsSplit(t, TYPE_LINE, NEWLINE + after);
    if |t| < |TYPE_LINE| {
      CutTypeDeafens(m, data);
    } else if |t| <= |TYPE_LINE| + 1 + |CONTENT_LENGTH| {
      EntersUnread(m, data, t[|TYPE_LINE|..], after);
    } else if |t| < |Header(n)| {
      EntersLength(m, data, n, body);
    } else {
      BeginsSplit(t, Header(n), body);
      var p := t[|Header(n)|..];
      HeaderRead(m, data, n, p);
      assert t[|t|..] == [];
      assert Join(Cut(p, NEWLINE)) + [] == Join(Cut(p, NEWLINE));
    }
  }

  lemma EntersUnread(m: Msg, data: string, w: string, after: string)
    requires Blank(m) && m.raw + data == TYPE_LINE + w && Begins(w, NEWLINE + after)
    requires Begins(CONTENT_LENGTH, after) && |w| <= 1 + |CONTENT_LENGTH|
    ensures Unread(Append(m, data))
  {
    assert w == (NEWLINE + after)[..|w|] == (NEWLINE + CONTENT_LENGTH)[..|w|] by {
      assert after == CONTENT_LENGTH + after[|CONTENT_LENGTH|..];
    }
    EarlyCutUnread(m, data, w);
  }

  lemma EntersLength(m: Msg, data: string, n: nat, body: string)
    requires Blank(m) && 0 < n < WORD && Begins(m.raw + data, Header(n) + body)
    requires |TYPE_LINE| + 1 + |CONTENT_LENGTH| < |m.raw + data| < |Header(n)|
    ensures var r := Append(m, data); r.length > 0 && r.content == ""
  {
    var t := m.raw + data;
    TypeFacts();
    Pieces(n, body);
    var lead := TYPE_LINE + NEWLINE + CONTENT_LENGTH;
    var rest := Plain(n) + (NEWLINE + NEWLINE + body);
    assert Header(n) + body == lead + rest;
    BeginsSplit(t, lead, rest);
    var k, tail := LengthBegin(t[|lead|..], n, body);
    Regroup(TYPE_LINE, CONTENT_LENGTH, Plain(k), tail);
    CutLengthRead(m, data, k, tail);
  }

  lemma Regroup(a: string, b: string, c: string, d: string)
    ensures a + NEWLINE + b + (c + d) == a + NEWLINE + (b + c + d)
  {
  }

  /** Some digits of the length, or all of them and perhaps one newline. */
  lemma LengthBegin(u: string, n: nat, body: string) returns (k: nat, tail: string)
    requires n > 0 && Begins(u, Plain(n) + (NEWLINE + NEWLINE + body)) && 0 < |u| < |Plain(n)| + 2
    ensures 0 < k <= n && u == Plain(k) + tail && (tail == [] || tail == NEWLINE)
  {
    BeginsSplit(u, Plain(n), NEWLINE + NEWLINE + body);
    var i := if |u| <= |Plain(n)| then |u| else |Plain(n)|;
    k := DigitsBegin(n, i);
    tail := u[i..];
  }

  /** A chunk after the decisive ones. */
  lemma Continues(m: Msg, t: string, whole: string, data: string, n: nat)
    requires Progress(m, t, whole, n) && |whole| > |START| && 0 < n && |t| <= |whole|
    requires |whole| + |data| <= |Header(n)| + n
    ensures Progress(Append(m, data), t, whole + data, n)
  {
    if |t| < |TYPE_LINE| {
      StaysDeaf(m, data);
    } else if |t| <= |TYPE_LINE| + 1 + |CONTENT_LENGTH| {
      StaysUnread(m, data);
    } else {
      Grows(m, data);
      assert (whole + data)[|t|..] == whole[|t|..] + data;
      if |t| >= |Header(n)| {
        var p := t[|Header(n)|..];
        var q := Join(Cut(p, NEWLINE));
        assert q + (whole[|t|..] + data) == q + whole[|t|..] + data;
        JoinCut(p);
      }
    }
  }

  lemma {:induction false} DecisiveBegins(chunks: seq<string>)
    ensures Begins(Decisive(chunks), Flat(chunks))
    ensures |Flat(chunks)| > |START| ==> |Decisive(chunks)| > |START|
  {
    if chunks != [] && |Flat(chunks[..|chunks| - 1])| > |START| {
      DecisiveBegins(chunks[..|chunks| - 1]);
    }
  }

  lemma {:induction false} RunProgress(chunks: seq<string>, n: nat, body: string)
    requires 0 < n == |body| < WORD && Begins(Flat(chunks), Header(n) + body)
    ensures Progress(AppendAll(FRESH, chunks), Decisive(chunks), Flat(chunks), n)
  {
    if chunks == [] {
      TypeFacts();
    } else {
      var front, data := chunks[..|chunks| - 1], chunks[|chunks| - 1];
      var m, was := AppendAll(FRESH, front), Flat(front);
      BeginsMore(was, data, Header(n) + body);
      RunProgress(front, n, body);
      DecisiveBegins(front);
      if |was| > |START| {
        Continues(m, Decisive(front), was, data, n);
      } else if |was + data| > |START| {
        Enters(m, data, n, body);
      } else {
        ShortBegins(was + data, n, body);
        StaysBlank(m, data);
      }
    }
  }

  lemma ShortBegins(t: string, n: nat, body: string)
    requires Begins(t, Header(n) + body) && |t| <= |START|
    ensures Begins(t, START)
  {
    TypeFacts();
    Pieces(n, body);
    BeginsSplit(t, TYPE_LINE, NEWLINE + (CONTENT_LENGTH + (Plain(n) + (NEWLINE + NEWLINE + body))));
    BeginsSplit(t, START, RESPONSE);
  }

  // ---- the main results ----

  /** The decisive chunks hold the whole header, and of the body whole, non-empty lines. */
  predicate WellCut(n: nat, t: string) {
    |Header(n)| <= |t| && WholeLines(t[|Header(n)|..])
  }

  /** For every way of cutting a message into chunks: its content is the body if and only if the
      leading chunks that first go beyond "Content-Type: api/" hold the whole header and, of the
      body, non-empty lines that each end in a newline. */
  lemma BodyReproduced(chunks: seq<string>, body: string)
    requires 0 < |body| < WORD && Flat(chunks) == Header(|body|) + body
    ensures AppendAll(FRESH, chunks).content == body <==> WellCut(|body|, Decisive(chunks))
  {
    var n, whole := |body|, Flat(chunks);
    var t := Decisive(chunks);
    TypeFacts();
    Pieces(n, body);
    assert Begins(whole, whole);
    RunProgress(chunks, n, body);
    DecisiveBegins(chunks);
    if |t| >= |Header(n)| {
      var p := t[|Header(n)|..];
      Rejoined(Header(n), body, t, p);
      JoinCut(p);
      SameEnd(Join(Cut(p, NEWLINE)), p, whole[|t|..]);
    }
  }

  lemma Rejoined(header: string, body: string, t: string, p: string)
    requires Begins(t, header + body) && |header| <= |t| && p == t[|header|..]
    ensures body == p + (header + body)[|t|..]
  {
    assert (header + body)[|header|..] == body;
    assert p == (header + body)[..|t|][|header|..];
    assert body == body[..|p|] + body[|p|..];
    assert p == body[..|p|];
    assert (header + body)[|t|..] == body[|p|..];
  }

  lemma SameEnd(a: string, b: string, end: string)
    ensures a + end == b + end <==> a == b
  {
    if a + end == b + end {
      assert |a| == |b|;
      assert a == (a + end)[..|a|] == (b + end)[..|b|] == b;
    }
  }

  /** And then, chunk by chunk, the message is complete exactly when all of it has arrived. */
  lemma CompletesAtEnd(chunks: seq<string>, body: string)
    requires 0 < |body| < WORD && Begins(Flat(chunks), Header(|body|) + body) && WellCut(|body|, Decisive(chunks))
    ensures var m := AppendAll(FRESH, chunks);
      && m.category == Api && m.kind == Response
      && (m.complete <==> Flat(chunks) == Header(|body|) + body)
      && (m.complete ==> m.content == body)
  {
    var n, whole, t := |body|, Flat(chunks), Decisive(chunks);
    TypeFacts();
    Pieces(n, body);
    RunProgress(chunks, n, body);
    DecisiveBegins(chunks);
    JoinCut(t[|Header(n)|..]);
    Arrived(Header(n), body, t, whole);
  }

  /** What has arrived of a body, in the decisive chunks and after them. */
  lemma Arrived(header: string, body: string, t: string, whole: string)
    requires Begins(whole, header + body) && Begins(t, whole) && |header| <= |t|
    ensures t[|header|..] + whole[|t|..] == whole[|header|..]
    ensures |whole[|header|..]| == |body| <==> whole == header + body
    ensures whole == header + body ==> whole[|header|..] == body
  {
    assert t == whole[..|t|];
    assert whole[..|t|][|header|..] + whole[|t|..] == whole[|header|..];
    if |whole| == |header + body| { assert whole == (header + body)[..|whole|] == header + body; }
  }

  /** Leading chunks that stop within the length or before the blank line: everything after them
      becomes content, the rest of the header included. */
  lemma CutLengthShifts(chunks: seq<string>, body: string)
    requires 0 < |body| < WORD && Flat(chunks) == Header(|body|) + body
    requires |TYPE_LINE| + 1 + |CONTENT_LENGTH| < |Decisive(chunks)| < |Header(|body|)|
    ensures var m := AppendAll(FRESH, chunks);
      m.content == Flat(chunks)[|Decisive(chunks)|..] && |m.content| > |body|
  {
    TypeFacts();
    assert Begins(Flat(chunks), Flat(chunks));
    RunProgress(chunks, |body|, body);
    DecisiveBegins(chunks);
  }

  /** Leading chunks that stop before the first digit of the length are never recovered from,
      whatever follows. */
  lemma {:induction false} EarlyCutSticks(chunks: seq<string>, n: nat, body: string, later: seq<string>)
    requires 0 < n == |body| < WORD && Begins(Flat(chunks), Header(n) + body)
    requires |START| < |Decisive(chunks)| <= |TYPE_LINE| + 1 + |CONTENT_LENGTH| && |START| < |Flat(chunks)|
    ensures var m := AppendAll(AppendAll(FRESH, chunks), later); (Deaf(m) || Unread(m)) && !m.complete
    decreases |later|
  {
    RunProgress(chunks, n, body);
    if later != [] {
      var front := later[..|later| - 1];
      EarlyCutSticks(chunks, n, body, front);
      var m, data := AppendAll(AppendAll(FRESH, chunks), front), later[|later| - 1];
      if Deaf(m) { StaysDeaf(m, data); } else { StaysUnread(m, data); }
    }
  }
}
