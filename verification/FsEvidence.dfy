/** What the bytes of a message must have said for the parser to take them as it did. */
module FsEvidence {
  import opened Tokens
  import opened FsMessages

  const OK_LINE: string := "Reply-Text: +OK"
  const AUTH: string := "auth"

  /** Some line of the text begins with an ok reply. */
  ghost predicate SaysOk(text: string) {
    exists i :: 0 <= i < |Cut(text, NEWLINE)| && StartsWith(Cut(text, NEWLINE)[i], OK_LINE)
  }

  /** The line gives a content type in category auth. */
  predicate AuthLine(line: string) {
    && StartsWith(line, CONTENT_TYPE)
    && |Cut(line[|CONTENT_TYPE|..], SLASH)| >= 2 && Cut(line[|CONTENT_TYPE|..], SLASH)[0] == AUTH
  }

  ghost predicate SaysAuth(text: string) {
    exists i :: 0 <= i < |Cut(text, NEWLINE)| && AuthLine(Cut(text, NEWLINE)[i])
  }

  // ---- text that grows ----

  lemma {:induction false} RunGrows(a: string, b: string, seps: string)
    requires Clean(a, seps)
    ensures Run(a + b, seps) == |a| + Run(b, seps)
  {
    if a == [] {
      assert a + b == b;
    } else {
      assert (a + b)[1..] == a[1..] + b;
      RunGrows(a[1..], b, seps);
    }
  }

  /** The pieces of `x` but the last are pieces of `y`, and the last begins one. */
  ghost predicate Extends(x: seq<string>, y: seq<string>) {
    && |x| <= |y| && (forall i :: 0 <= i < |x| - 1 ==> y[i] == x[i])
    && (x != [] ==> StartsWith(y[|x| - 1], x[|x| - 1]))
  }

  lemma ExtendsCons(p: string, x: seq<string>, y: seq<string>)
    requires Extends(x, y)
    ensures Extends([p] + x, [p] + y)
  {
    var v, w := [p] + x, [p] + y;
    assert forall i :: 0 < i < |v| ==> v[i] == x[i - 1] && w[i] == y[i - 1];
  }

  /** Cutting a longer text only adds pieces and lengthens the last. */
  lemma {:induction false} CutExtends(a: string, b: string, seps: string)
    ensures Extends(Cut(a, seps), Cut(a + b, seps))
    decreases |a|, 1
  {
    if a != [] {
      assert (a + b)[0] == a[0];
      if a[0] in seps {
        assert (a + b)[1..] == a[1..] + b;
        CutExtends(a[1..], b, seps);
      } else {
        PieceExtends(a, b, seps);
      }
    }
  }

  /** A text of one piece begins the first piece of a longer one. */
  lemma LastExtends(a: string, b: string, seps: string)
    requires a != [] && Clean(a, seps)
    ensures Extends([a], Cut(a + b, seps))
  {
    var t := a + b;
    RunGrows(a, b, seps);
    assert t[0] == a[0] && t[..Run(t, seps)][..|a|] == a;
    assert Cut(t, seps)[0] == t[..Run(t, seps)];
  }

  lemma PieceExtends(a: string, b: string, seps: string)
    requires a != [] && a[0] !in seps
    ensures Extends(Cut(a, seps), Cut(a + b, seps))
    decreases |a|, 0
  {
    var k := Run(a, seps);
    var line, rest := a[..k], a[k..];
    if rest == [] {
      assert a == line;
      CutLast(a, seps);
      LastExtends(a, b, seps);
    } else {
      CutExtends(rest, b, seps);
      FirstKept(line, rest, b, seps);
      assert a == line + rest;
    }
  }

  lemma FirstKept(line: string, rest: string, b: string, seps: string)
    requires line != [] && Clean(line, seps) && rest != [] && rest[0] in seps
    requires Extends(Cut(rest, seps), Cut(rest + b, seps))
    ensures Extends(Cut(line + rest, seps), Cut(line + rest + b, seps))
  {
    CutPiece(line, rest, seps);
    assert line + rest + b == line + (rest + b) && (rest + b)[0] == rest[0];
    CutPiece(line, rest + b, seps);
    ExtendsCons(line, Cut(rest, seps), Cut(rest + b, seps));
  }

  lemma StartsLonger(y: string, x: string, prefix: string)
    requires StartsWith(y, x) && StartsWith(x, prefix)
    ensures StartsWith(y, prefix)
  {
    assert y[..|prefix|] == x[..|prefix|];
  }

  lemma LineFound(x: seq<string>, y: seq<string>, i: nat)
    requires Extends(x, y) && i < |x|
    ensures StartsWith(y[i], x[i])
  {
  }

  lemma StillOk(a: string, b: string)
    requires SaysOk(a)
    ensures SaysOk(a + b)
  {
    CutExtends(a, b, NEWLINE);
    var x, y := Cut(a, NEWLINE), Cut(a + b, NEWLINE);
    var i :| 0 <= i < |x| && StartsWith(x[i], OK_LINE);
    LineFound(x, y, i);
    StartsLonger(y[i], x[i], OK_LINE);
  }

  lemma AuthLonger(line: string, more: string)
    requires AuthLine(line) && StartsWith(more, line)
    ensures AuthLine(more)
  {
    var n := |CONTENT_TYPE|;
    StartsLonger(more, line, CONTENT_TYPE);
    var added := more[|line|..];
    assert more == line + added;
    assert more[n..] == line[n..] + added;
    CutExtends(line[n..], added, SLASH);
  }

  lemma StillAuth(a: string, b: string)
    requires SaysAuth(a)
    ensures SaysAuth(a + b)
  {
    CutExtends(a, b, NEWLINE);
    var x, y := Cut(a, NEWLINE), Cut(a + b, NEWLINE);
    var i :| 0 <= i < |x| && AuthLine(x[i]);
    LineFound(x, y, i);
    AuthLonger(x[i], y[i]);
  }

  // ---- messages ----

  /** What the message claims is in its bytes. */
  ghost predicate Backed(m: Msg) {
    (m.reply == OkReply ==> SaysOk(m.raw)) && (m.category == Auth ==> SaysAuth(m.raw))
  }

  lemma OkLine(line: string)
    requires StartsWith(line, REPLY_TEXT) && StartsWith(line[|REPLY_TEXT|..], "+OK")
    ensures StartsWith(line, OK_LINE)
  {
    var n := |REPLY_TEXT|;
    assert OK_LINE == REPLY_TEXT + "+OK";
    assert line[..n + 3] == line[..n] + line[n..][..3];
  }

  lemma LineBacked(m: Msg, i: nat)
    requires Backed(m) && i < |Cut(m.raw, NEWLINE)|
    ensures Line(m, Cut(m.raw, NEWLINE)[i]).0.raw == m.raw && Backed(Line(m, Cut(m.raw, NEWLINE)[i]).0)
  {
    var line := Cut(m.raw, NEWLINE)[i];
    if StartsWith(line, REPLY_TEXT) && StartsWith(line[|REPLY_TEXT|..], "+OK") { OkLine(line); }
  }

  lemma {:induction false} LinesBacked(m: Msg, i: nat)
    requires Backed(m) && i <= |Cut(m.raw, NEWLINE)|
    ensures var n := Lines(m, Cut(m.raw, NEWLINE)[i..]).0; n.raw == m.raw && Backed(n)
    decreases |Cut(m.raw, NEWLINE)| - i
  {
    var all := Cut(m.raw, NEWLINE);
    if i < |all| {
      assert all[i..][0] == all[i] && all[i..][1..] == all[i + 1..];
      LineBacked(m, i);
      LinesBacked(Line(m, all[i]).0, i + 1);
    }
  }

  lemma AppendBacked(m: Msg, data: string)
    requires Backed(m)
    ensures Append(m, data).raw == m.raw + data && Backed(Append(m, data))
  {
    var n := m.(raw := m.raw + data);
    if m.reply == OkReply { StillOk(m.raw, data); }
    if m.category == Auth { StillAuth(m.raw, data); }
    LinesBacked(n, 0);
    assert Cut(n.raw, NEWLINE)[0..] == Cut(n.raw, NEWLINE);
  }

  /** However a message is cut: what it claims is in the bytes read. */
  lemma {:induction false} MessageBacked(chunks: seq<string>)
    ensures AppendAll(FRESH, chunks).raw == Flat(chunks) && Backed(AppendAll(FRESH, chunks))
  {
    if chunks != [] {
      MessageBacked(chunks[..|chunks| - 1]);
      AppendBacked(AppendAll(FRESH, chunks[..|chunks| - 1]), chunks[|chunks| - 1]);
    }
  }
}
