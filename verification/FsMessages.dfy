/** Event socket messages, put together from the chunks in which they arrive. */
module FsMessages {
  import opened Decimal
  import opened Tokens

  datatype Category = UnknownCategory | Api | Auth | Command | Text
  datatype Kind = UnknownKind | Request | Reply | Response | DisconnectNotice
  datatype ReplyStatus = Undefined | OkReply | ErrReply

  datatype Msg = Msg(
    category: Category, kind: Kind, reply: ReplyStatus, replyText: string,
    length: nat, content: string, raw: string, valid: bool, complete: bool)

  const FRESH: Msg := Msg(UnknownCategory, UnknownKind, Undefined, "", 0, "", "", false, false)

  const CONTENT_TYPE: string := "Content-Type: "
  const REPLY_TEXT: string := "Reply-Text: "
  const CONTENT_LENGTH: string := "Content-Length: "
  const SLASH: string := "/"
  const WORD: nat := 0x1_0000_0000

  predicate StartsWith(s: string, prefix: string) { |prefix| <= |s| && s[..|prefix|] == prefix }

  // ---- atoi ----

  predicate IsSpace(c: char) { c == ' ' || c == '\t' || c == '\n' || c == '\r' }

  function Leading(s: string): (k: nat)
    ensures k <= |s| && AllDigits(s[..k])
  {
    if s == [] || !IsDigit(s[0]) then 0
    else
      var k := 1 + Leading(s[1..]);
      assert forall i :: 0 < i < k ==> s[i] == s[1..][..k - 1][i - 1];
      k
  }

  /** The number at the front of the text, 0 if there is none. */
  function Atoi(s: string): int {
    if s == [] then 0
    else if IsSpace(s[0]) then Atoi(s[1..])
    else if s[0] == '-' then -Val(s[1..][..Leading(s[1..])])
    else if s[0] == '+' then Val(s[1..][..Leading(s[1..])])
    else Val(s[..Leading(s)])
  }

  lemma {:induction false} LeadingIs(d: string, rest: string)
    requires AllDigits(d) && (rest == [] || !IsDigit(rest[0]))
    ensures Leading(d + rest) == |d|
  {
    if d == [] {
      assert d + rest == rest;
    } else {
      assert (d + rest)[1..] == d[1..] + rest;
      LeadingIs(d[1..], rest);
    }
  }

  lemma AtoiPlain(n: nat)
    ensures Atoi(Plain(n)) == n
  {
    var s := Plain(n);
    assert s + [] == s;
    LeadingIs(s, []);
    assert IsDigit(s[0]) && s[..|s|] == s;
    ValPlain(n);
  }

  // ---- one line ----

  function CategoryOf(s: string): Category {
    if s == "api" then Api else if s == "auth" then Auth else if s == "command" then Command
    else if s == "text" then Text else UnknownCategory
  }

  function KindOf(s: string): Kind {
    if s == "reply" then Reply else if s == "request" then Request else if s == "response" then Response
    else if s == "disconnect-notice" then DisconnectNotice else UnknownKind
  }

  /** Each returns the message and whether the line was accepted; a refused line can leave part of
      its effect behind. */
  function TypeLine(m: Msg, line: string): (Msg, bool) {
    if !StartsWith(line, CONTENT_TYPE) then (m, false)
    else TypeParts(m, Cut(line[|CONTENT_TYPE|..], SLASH))
  }

  function TypeParts(m: Msg, parts: seq<string>): (Msg, bool) {
    if |parts| != 2 || CategoryOf(parts[0]) == UnknownCategory then (m, false)
    else
      var kind := KindOf(parts[1]);
      (m.(category := CategoryOf(parts[0]), kind := if kind == UnknownKind then m.kind else kind), kind != UnknownKind)
  }

  function ReplyLine(m: Msg, line: string): (Msg, bool) {
    if m.reply != Undefined || !StartsWith(line, REPLY_TEXT) then (m, false)
    else
      var s := line[|REPLY_TEXT|..];
      var reply := if StartsWith(s, "+OK") then OkReply else if StartsWith(s, "+ERR") then ErrReply else Undefined;
      (m.(replyText := line, reply := reply), reply != Undefined)
  }

  function BodyLine(m: Msg, line: string): (Msg, bool) {
    if m.length != 0 then (m.(content := m.content + line + NEWLINE), true)
    else if !StartsWith(line, CONTENT_LENGTH) then (m, false)
    else (m.(length := Atoi(line[|CONTENT_LENGTH|..]) % WORD), true)
  }

  predicate HasBody(m: Msg) { (m.category == Api && m.kind == Response) || m.category == Text }

  function Line(m: Msg, line: string): (Msg, bool) {
    if m.category == UnknownCategory then TypeLine(m, line)
    else if m.category == Command && m.kind == Reply then ReplyLine(m, line)
    else if HasBody(m) then BodyLine(m, line)
    else (m, true)
  }

  /** Lines up to the first refused one. */
  function Lines(m: Msg, lines: seq<string>): (Msg, bool)
    decreases lines
  {
    if lines == [] then (m, true)
    else
      var (n, ok) := Line(m, lines[0]);
      if ok then Lines(n, lines[1..]) else (n, false)
  }

  // ---- chunks ----

  predicate Finished(m: Msg) {
    m.kind == Request || (m.kind == Reply && m.reply != Undefined) || (m.length > 0 && |m.content| == m.length)
  }

  /** Once a length is known, chunks are content; before that the whole text is read again. */
  function Parse(m: Msg, data: string): (Msg, bool) {
    if m.length > 0 then (m.(content := m.content + data), true)
    else Lines(m, Cut(m.raw, NEWLINE))
  }

  function Append(m: Msg, data: string): Msg {
    var (n, ok) := Parse(m.(raw := m.raw + data), data);
    if ok then n.(complete := n.complete || Finished(n), valid := true) else n
  }

  function AppendAll(m: Msg, chunks: seq<string>): Msg {
    if chunks == [] then m else Append(AppendAll(m, chunks[..|chunks| - 1]), chunks[|chunks| - 1])
  }

  function Flat(chunks: seq<string>): string {
    if chunks == [] then "" else Flat(chunks[..|chunks| - 1]) + chunks[|chunks| - 1]
  }

  // ---- the lines of an api response ----

  const API: string := "api"
  const RESPONSE: string := "response"
  const API_RESPONSE: string := API + SLASH + RESPONSE
  const TYPE_LINE: string := CONTENT_TYPE + API_RESPONSE

  function Header(n: nat): string {
    TYPE_LINE + NEWLINE + (CONTENT_LENGTH + Plain(n) + NEWLINE + NEWLINE)
  }

  lemma Prefixed(prefix: string, rest: string)
    ensures StartsWith(prefix + rest, prefix) && (prefix + rest)[|prefix|..] == rest
  {
  }

  lemma TwoParts(a: string, b: string)
    requires a != [] && b != [] && Clean(a, SLASH) && Clean(b, SLASH)
    ensures Cut(a + SLASH + b, SLASH) == [a, b]
  {
    CutLine(a, '/', b, SLASH);
    CutLast(b, SLASH);
    assert a + ['/'] + b == a + SLASH + b;
  }

  lemma TypeAccepted(m: Msg)
    ensures TypeLine(m, TYPE_LINE) == (m.(category := Api, kind := Response), true)
  {
    Prefixed(CONTENT_TYPE, API_RESPONSE);
    assert Clean(API, SLASH) && Clean(RESPONSE, SLASH);
    TwoParts(API, RESPONSE);
  }

  lemma LengthAccepted(m: Msg, n: nat)
    requires m.length == 0 && n < WORD
    ensures BodyLine(m, CONTENT_LENGTH + Plain(n)) == (m.(length := n), true)
  {
    Prefixed(CONTENT_LENGTH, Plain(n));
    AtoiPlain(n);
    LengthRead(m, CONTENT_LENGTH + Plain(n), n);
  }

  lemma LengthRead(m: Msg, line: string, n: nat)
    requires m.length == 0 && StartsWith(line, CONTENT_LENGTH) && Atoi(line[|CONTENT_LENGTH|..]) == n < WORD
    ensures BodyLine(m, line) == (m.(length := n), true)
  {
  }

  lemma {:induction false} BodyAccepted(m: Msg, lines: seq<string>)
    requires HasBody(m) && m.length > 0
    requires m.category != UnknownCategory && !(m.category == Command && m.kind == Reply)
    ensures Lines(m, lines) == (m.(content := m.content + Join(lines)), true)
    decreases lines
  {
    if lines == [] {
      assert m.content + Join(lines) == m.content;
    } else {
      var n := Line(m, lines[0]).0;
      BodyAccepted(n, lines[1..]);
      assert n.content + Join(lines[1..]) == m.content + Join(lines);
    }
  }

  lemma DigitsClean(n: nat)
    ensures Clean(CONTENT_LENGTH + Plain(n), NEWLINE)
  {
    var d := Plain(n);
    assert forall i :: 0 <= i < |d| ==> IsDigit(d[i]);
    assert Clean(CONTENT_LENGTH, NEWLINE);
  }

  lemma TypeClean()
    ensures TYPE_LINE != [] && Clean(TYPE_LINE, NEWLINE)
  {
  }

  lemma CutTwo(first: string, second: string, p: string)
    requires first != [] && second != [] && Clean(first, NEWLINE) && Clean(second, NEWLINE)
    ensures Cut(first + NEWLINE + (second + NEWLINE + NEWLINE) + p, NEWLINE) == [first, second] + Cut(p, NEWLINE)
  {
    var tail := NEWLINE + p;
    CutLine(first, '\n', second + NEWLINE + tail, NEWLINE);
    CutLine(second, '\n', tail, NEWLINE);
    assert tail[1..] == p;
    assert first + NEWLINE + (second + NEWLINE + NEWLINE) + p == first + ['\n'] + (second + NEWLINE + tail);
    assert second + NEWLINE + tail == second + ['\n'] + tail;
    assert [first] + ([second] + Cut(p, NEWLINE)) == [first, second] + Cut(p, NEWLINE);
  }

  lemma HeaderCut(n: nat, p: string)
    ensures Cut(Header(n) + p, NEWLINE) == [TYPE_LINE, CONTENT_LENGTH + Plain(n)] + Cut(p, NEWLINE)
  {
    TypeClean();
    DigitsClean(n);
    CutTwo(TYPE_LINE, CONTENT_LENGTH + Plain(n), p);
  }

  lemma HeaderLines(m: Msg, n: nat, rest: seq<string>)
    requires m.category == UnknownCategory && m.length == 0 && m.content == "" && 0 < n < WORD
    ensures Lines(m, [TYPE_LINE, CONTENT_LENGTH + Plain(n)] + rest)
      == (m.(category := Api, kind := Response, length := n, content := Join(rest)), true)
  {
    TypeAccepted(m);
    var m1 := m.(category := Api, kind := Response);
    LengthAccepted(m1, n);
    var m2 := m1.(length := n);
    TwoLines(m, TYPE_LINE, CONTENT_LENGTH + Plain(n), rest, m1, m2);
    BodyAccepted(m2, rest);
    assert m2.content + Join(rest) == Join(rest);
  }

  lemma ParsedWhole(m: Msg, data: string, n: Msg)
    requires m.length == 0 && Lines(m.(raw := m.raw + data), Cut(m.raw + data, NEWLINE)) == (n, true)
    ensures Append(m, data) == n.(complete := n.complete || Finished(n), valid := true)
  {
  }

  lemma ParsedInPart(m: Msg, data: string, n: Msg)
    requires m.length == 0 && Lines(m.(raw := m.raw + data), Cut(m.raw + data, NEWLINE)) == (n, false)
    ensures Append(m, data) == n
  {
  }

  lemma OneLine(m: Msg, a: string, n: Msg)
    requires Line(m, a) == (n, true)
    ensures Lines(m, [a]) == (n, true)
  {
    assert Lines(n, [a][1..]) == (n, true);
  }

  lemma TwoLines(m: Msg, a: string, b: string, rest: seq<string>, m1: Msg, m2: Msg)
    requires Line(m, a) == (m1, true) && Line(m1, b) == (m2, true)
    ensures Lines(m, [a, b] + rest) == Lines(m2, rest)
  {
    var lines := [a, b] + rest;
    assert lines[1..][0] == b && lines[1..][1..] == rest;
    assert Lines(m1, lines[1..]) == Lines(m2, rest);
  }

  lemma Refused(m: Msg, line: string, rest: seq<string>)
    requires m.category == Api && m.kind == Response && m.length == 0 && !StartsWith(line, CONTENT_LENGTH)
    ensures Lines(m, [line] + rest) == (m, false)
  {
  }
}
