/** The message object of the event socket client, and what it reads out of a response body. */
module FsReader {
  import opened Options
  import opened Decimal
  import opened Tokens
  import opened FsMessages

  const SPACE: string := " "
  const BLANKS: string := " \t"
  const CONTACT: string := "@:"
  const DEFAULT_PORT: nat := 5060

  predicate HasDigit(s: string) { exists i :: 0 <= i < |s| && IsDigit(s[i]) }

  /** The number in front of a line; the first word only has to contain a digit somewhere. */
  function LeadingInteger(line: string): Option<nat> {
    var words := Cut(line, SPACE);
    if words == [] || !HasDigit(words[0]) then None else Some(Atoi(words[0]) % WORD)
  }

  /** Session counts from the fourth and fifth lines. The first can change though the second fails. */
  function ReadStatus(content: string, current: nat, max: nat): (bool, nat, nat) {
    var lines := Cut(content, NEWLINE);
    if |lines| < 5 then (false, current, max)
    else match LeadingInteger(lines[3])
      case None => (false, current, max)
      case Some(c) => match LeadingInteger(lines[4])
        case None => (false, c, max)
        case Some(m) => (true, c, m)
  }

  /** Address and port of a contact such as sip:user@address:port. */
  function ContactOf(contact: string): Option<(string, nat)> {
    var parts := Cut(contact, CONTACT);
    if |parts| < 3 then None
    else Some((parts[2], if |parts| > 3 then Atoi(parts[3]) % WORD else DEFAULT_PORT))
  }

  /** The first line that starts with the profile's name decides. */
  function ReadProfile(lines: seq<string>, profile: string): Option<(string, nat)> {
    if lines == [] then None
    else
      var words := Cut(lines[0], BLANKS);
      if words == [] || words[0] != profile then ReadProfile(lines[1..], profile)
      else if |words| < 3 then None
      else ContactOf(words[2])
  }

  // ---- reading back what was rendered ----

  /** Joining non-empty lines and cutting again gives the lines back. */
  lemma {:induction false} CutJoin(lines: seq<string>)
    requires forall i :: 0 <= i < |lines| ==> lines[i] != [] && Clean(lines[i], NEWLINE)
    ensures Cut(Join(lines), NEWLINE) == lines
  {
    if lines != [] {
      CutJoin(lines[1..]);
      assert lines[0] + NEWLINE + Join(lines[1..]) == lines[0] + ['\n'] + Join(lines[1..]);
      CutLine(lines[0], '\n', Join(lines[1..]), NEWLINE);
    }
  }

  lemma PlainClean(n: nat, seps: string)
    requires forall i :: 0 <= i < |seps| ==> !IsDigit(seps[i])
    ensures Clean(Plain(n), seps) && HasDigit(Plain(n))
  {
    var d := Plain(n);
    assert forall i :: 0 <= i < |d| ==> IsDigit(d[i]);
    assert IsDigit(d[0]);
  }

  lemma CountReadBack(n: nat, rest: string)
    requires n < WORD && (rest == [] || rest[0] == ' ')
    ensures LeadingInteger(Plain(n) + rest) == Some(n)
  {
    PlainClean(n, SPACE);
    CutPiece(Plain(n), rest, SPACE);
    CountRead(Plain(n) + rest, Plain(n), n);
  }

  lemma CountRead(line: string, word: string, n: nat)
    requires word == Plain(n) && n < WORD && HasDigit(word) && Cut(line, SPACE) != [] && Cut(line, SPACE)[0] == word
    ensures LeadingInteger(line) == Some(n)
  {
    AtoiPlain(n);
  }

  /** A status text whose fourth and fifth lines start with two counts is read as those counts. */
  lemma StatusReadBack(lines: seq<string>, current: nat, max: nat, after: string, afterMax: string, wasCurrent: nat,
      wasMax: nat)
    requires forall i :: 0 <= i < |lines| ==> lines[i] != [] && Clean(lines[i], NEWLINE)
    requires |lines| >= 5 && current < WORD && max < WORD
    requires lines[3] == Plain(current) + after && (after == [] || after[0] == ' ')
    requires lines[4] == Plain(max) + afterMax && (afterMax == [] || afterMax[0] == ' ')
    ensures ReadStatus(Join(lines), wasCurrent, wasMax) == (true, current, max)
  {
    CutJoin(lines);
    CountReadBack(current, after);
    CountReadBack(max, afterMax);
  }

  /** A contact is read as its address and port. */
  lemma ContactReadBack(scheme: string, user: string, address: string, port: nat)
    requires scheme != [] && user != [] && address != [] && port < WORD
    requires Clean(scheme, CONTACT) && Clean(user, CONTACT) && Clean(address, CONTACT)
    ensures ContactOf(scheme + [':'] + (user + ['@'] + (address + [':'] + Plain(port)))) == Some((address, port))
  {
    PlainClean(port, CONTACT);
    var rest := address + [':'] + Plain(port);
    TwoAfter(address, Plain(port), CONTACT);
    TwoBefore(scheme, user, rest, CONTACT);
    ContactParts(scheme + [':'] + (user + ['@'] + rest), scheme, user, address, port);
  }

  lemma ContactParts(contact: string, scheme: string, user: string, address: string, port: nat)
    requires Cut(contact, CONTACT) == [scheme, user] + [address, Plain(port)] && port < WORD
    ensures ContactOf(contact) == Some((address, port))
  {
    AtoiPlain(port);
  }

  lemma TwoAfter(a: string, b: string, seps: string)
    requires a != [] && b != [] && Clean(a, seps) && Clean(b, seps) && ':' in seps
    ensures Cut(a + [':'] + b, seps) == [a, b]
  {
    CutLine(a, ':', b, seps);
    CutLast(b, seps);
  }

  lemma BareContactReadBack(scheme: string, user: string, address: string)
    requires scheme != [] && user != [] && address != []
    requires Clean(scheme, CONTACT) && Clean(user, CONTACT) && Clean(address, CONTACT)
    ensures ContactOf(scheme + [':'] + (user + ['@'] + address)) == Some((address, 5060))
  {
    CutLast(address, CONTACT);
    TwoBefore(scheme, user, address, CONTACT);
  }

  lemma TwoBefore(a: string, b: string, rest: string, seps: string)
    requires a != [] && b != [] && Clean(a, seps) && Clean(b, seps) && ':' in seps && '@' in seps
    ensures Cut(a + [':'] + (b + ['@'] + rest), seps) == [a, b] + Cut(rest, seps)
  {
    CutLine(a, ':', b + ['@'] + rest, seps);
    CutLine(b, '@', rest, seps);
    assert [a] + ([b] + Cut(rest, seps)) == [a, b] + Cut(rest, seps);
  }

  /** A text of fewer than five lines is no status: the counts stay as they were. */
  lemma ShortStatus(lines: seq<string>, current: nat, max: nat)
    requires |lines| < 5 && forall i :: 0 <= i < |lines| ==> lines[i] != [] && Clean(lines[i], NEWLINE)
    ensures ReadStatus(Join(lines), current, max) == (false, current, max)
  {
    CutJoin(lines);
  }

  /** A line whose first word is the profile's name. */
  predicate NamesProfile(line: string, profile: string) {
    Cut(line, BLANKS) != [] && Cut(line, BLANKS)[0] == profile
  }

  /** The third word of the first line that names the profile is the contact; other lines do not count. */
  lemma {:induction false} ProfileReadBack(lines: seq<string>, profile: string, k: nat)
    requires k < |lines| && NamesProfile(lines[k], profile) && |Cut(lines[k], BLANKS)| >= 3
    requires forall i :: 0 <= i < k ==> !NamesProfile(lines[i], profile)
    ensures ReadProfile(lines, profile) == ContactOf(Cut(lines[k], BLANKS)[2])
    decreases k
  {
    if k > 0 {
      assert !NamesProfile(lines[0], profile);
      forall i | 0 <= i < k - 1 ensures !NamesProfile(lines[1..][i], profile) {
        assert lines[1..][i] == lines[i + 1];
      }
      ProfileReadBack(lines[1..], profile, k - 1);
    }
  }

  lemma {:induction false} NoProfile(lines: seq<string>, profile: string)
    requires forall i :: 0 <= i < |lines| ==> !NamesProfile(lines[i], profile)
    ensures ReadProfile(lines, profile) == None
  {
    if lines != [] {
      assert !NamesProfile(lines[0], profile);
      NoProfile(lines[1..], profile);
    }
  }

  // ---- the object ----

  class FsMessage {
    var category: Category
    var kind: Kind
    var reply: ReplyStatus
    var replyText: string
    var length: nat
    var content: string
    var raw: string
    var valid: bool
    var complete: bool

    ghost function View(): Msg
      reads this
    {
      Msg(category, kind, reply, replyText, length, content, raw, valid, complete)
    }

    constructor ()
      ensures View() == FRESH
    {
      category, kind, reply, replyText := UnknownCategory, UnknownKind, Undefined, "";
      length, content, raw, valid, complete := 0, "", "", false, false;
    }

    method Reset()
      modifies this
      ensures View() == FRESH
    {
      category, kind, reply, replyText := UnknownCategory, UnknownKind, Undefined, "";
      length, content, raw, valid, complete := 0, "", "", false, false;
    }

    method Append(data: string) returns (done: bool)
      modifies this
      ensures View() == FsMessages.Append(old(View()), data) && done == complete
    {
      raw := raw + data;
      var ok := Parse(data);
      if ok { valid := true; }
      done := complete;
    }

    method Parse(data: string) returns (ok: bool)
      modifies this
      ensures var (n, accepted) := FsMessages.Parse(old(View()), data);
        && ok == accepted
        && View() == if ok then n.(complete := n.complete || Finished(n)) else n
    {
      ok := true;
      if length > 0 {
        content := content + data;
      } else {
        var lines := Cut(raw, NEWLINE);
        var i := 0;
        while ok && i < |lines|
          invariant 0 <= i <= |lines|
          invariant Lines(old(View()), lines) == if ok then Lines(View(), lines[i..]) else (View(), false)
        {
          assert lines[i..][0] == lines[i] && lines[i..][1..] == lines[i + 1..];
          ok := ParseLine(lines[i]);
          i := i + 1;
        }
        if !ok { return; }
      }
      if kind == Request || (kind == Reply && reply != Undefined) || (length > 0 && |content| == length) {
        complete := true;
      }
    }

    method ParseLine(line: string) returns (ok: bool)
      modifies this
      ensures (View(), ok) == Line(old(View()), line)
    {
      if category == UnknownCategory {
        ok := ParseTypeLine(line);
      } else if category == Command && kind == Reply {
        ok := ParseReplyLine(line);
      } else if (category == Api && kind == Response) || category == Text {
        ok := ParseBodyLine(line);
      } else {
        ok := true;
      }
    }

    method ParseTypeLine(line: string) returns (ok: bool)
      modifies this`category, this`kind
      ensures (View(), ok) == TypeLine(old(View()), line)
    {
      if !StartsWith(line, CONTENT_TYPE) { return false; }
      var parts := Cut(line[|CONTENT_TYPE|..], SLASH);
      if |parts| != 2 { return false; }
      var c := CategoryOf(parts[0]);
      if c == UnknownCategory { return false; }
      category := c;
      var k := KindOf(parts[1]);
      if k == UnknownKind { return false; }
      kind := k;
      ok := true;
    }

    method ParseReplyLine(line: string) returns (ok: bool)
      modifies this`reply, this`replyText
      ensures (View(), ok) == ReplyLine(old(View()), line)
    {
      if reply != Undefined || !StartsWith(line, REPLY_TEXT) { return false; }
      replyText := line;
      var s := line[|REPLY_TEXT|..];
      ok := true;
      if StartsWith(s, "+OK") {
        reply := OkReply;
      } else if StartsWith(s, "+ERR") {
        reply := ErrReply;
      } else {
        ok := false;
      }
    }

    method ParseBodyLine(line: string) returns (ok: bool)
      modifies this`length, this`content
      ensures (View(), ok) == BodyLine(old(View()), line)
    {
      ok := true;
      if length != 0 {
        content := content + line;
        content := content + NEWLINE;
      } else if StartsWith(line, CONTENT_LENGTH) {
        length := Atoi(line[|CONTENT_LENGTH|..]) % WORD;
      } else {
        ok := false;
      }
    }

    method GetSipProfile(profile: string) returns (found: Option<(string, nat)>)
      ensures found == ReadProfile(Cut(content, NEWLINE), profile)
    {
      var lines := Cut(content, NEWLINE);
      var i := 0;
      while i < |lines|
        invariant 0 <= i <= |lines|
        invariant ReadProfile(lines, profile) == ReadProfile(lines[i..], profile)
      {
        var words := Cut(lines[i], BLANKS);
        if words != [] && words[0] == profile {
          return if |words| < 3 then None else ContactOf(words[2]);
        }
        assert lines[i..][0] == lines[i] && lines[i..][1..] == lines[i + 1..];
        i := i + 1;
      }
      found := None;
    }

    method GetFsStatus(current: nat, max: nat) returns (ok: bool, newCurrent: nat, newMax: nat)
      ensures (ok, newCurrent, newMax) == ReadStatus(content, current, max)
    {
      newCurrent, newMax := current, max;
      var lines := Cut(content, NEWLINE);
      if |lines| < 5 { return false, newCurrent, newMax; }
      var c := LeadingInteger(lines[3]);
      if c == None { return false, newCurrent, newMax; }
      newCurrent := c.value;
      var m := LeadingInteger(lines[4]);
      if m == None { return false, newCurrent, newMax; }
      newMax := m.value;
      ok := true;
    }
  }
}
