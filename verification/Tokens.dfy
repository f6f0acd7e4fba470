/** Cutting text at separator characters, empty pieces being left out. */
module Tokens {

  /** Length of the leading piece without separators. */
  function Run(s: string, seps: string): (k: nat)
    ensures k <= |s|
    ensures forall i :: 0 <= i < k ==> s[i] !in seps
    ensures k < |s| ==> s[k] in seps
  {
    if s == [] || s[0] in seps then 0 else 1 + Run(s[1..], seps)
  }

  function Cut(s: string, seps: string): (ts: seq<string>)
    ensures forall i :: 0 <= i < |ts| ==> ts[i] != [] && Clean(ts[i], seps)
    decreases |s|
  {
    if s == [] then []
    else if s[0] in seps then Cut(s[1..], seps)
    else var k := Run(s, seps); [s[..k]] + Cut(s[k..], seps)
  }

  predicate Clean(s: string, seps: string) { forall i :: 0 <= i < |s| ==> s[i] !in seps }

  lemma {:induction false} RunIs(a: string, rest: string, seps: string)
    requires Clean(a, seps) && (rest == [] || rest[0] in seps)
    ensures Run(a + rest, seps) == |a|
  {
    if a == [] {
      assert a + rest == rest;
    } else {
      assert (a + rest)[1..] == a[1..] + rest;
      RunIs(a[1..], rest, seps);
    }
  }

  /** A piece, and what follows it. */
  lemma CutPiece(a: string, rest: string, seps: string)
    requires a != [] && Clean(a, seps) && (rest == [] || rest[0] in seps)
    ensures Cut(a + rest, seps) == [a] + Cut(rest, seps)
  {
    RunIs(a, rest, seps);
    assert (a + rest)[0] == a[0];
    assert (a + rest)[..|a|] == a && (a + rest)[|a|..] == rest;
  }

  lemma CutLine(a: string, c: char, rest: string, seps: string)
    requires a != [] && Clean(a, seps) && c in seps
    ensures Cut(a + [c] + rest, seps) == [a] + Cut(rest, seps)
  {
    assert a + [c] + rest == a + ([c] + rest);
    CutPiece(a, [c] + rest, seps);
    assert ([c] + rest)[1..] == rest;
  }

  lemma CutLast(a: string, seps: string)
    requires a != [] && Clean(a, seps)
    ensures Cut(a, seps) == [a]
  {
    assert a + [] == a;
    CutPiece(a, [], seps);
  }

  // ---- lines ----

  const NEWLINE: string := "\n"

  function Join(lines: seq<string>): string {
    if lines == [] then "" else lines[0] + NEWLINE + Join(lines[1..])
  }

  /** Non-empty lines, each ended by a newline. */
  predicate WholeLines(p: string) {
    && (p != [] ==> p[0] != '\n' && p[|p| - 1] == '\n')
    && forall i :: 0 <= i < |p| - 1 ==> p[i] != '\n' || p[i + 1] != '\n'
  }

  lemma WholeLinesStep(line: string, rest: string)
    requires line != [] && Clean(line, NEWLINE)
    ensures WholeLines(line + NEWLINE + rest) <==> WholeLines(rest)
  {
    var p, n := line + NEWLINE + rest, |line| + 1;
    assert p[|line|] == '\n' && '\n' in NEWLINE;
    assert forall i :: 0 <= i < |rest| ==> p[i + n] == rest[i];
    assert forall i :: 0 <= i < |line| ==> p[i] == line[i] != '\n';
    if WholeLines(p) {
      forall i | 0 <= i < |rest| - 1 ensures rest[i] != '\n' || rest[i + 1] != '\n' { assert p[i + n] == rest[i]; }
      if rest != [] { assert p[|line| + 1] == rest[0]; }
    }
    if WholeLines(rest) {
      forall i | 0 <= i < |p| - 1 ensures p[i] != '\n' || p[i + 1] != '\n' {
        if i >= n { assert p[i] == rest[i - n] && p[i + 1] == rest[i + 1 - n]; }
      }
    }
  }

  /** Cutting into lines and joining again gives the text back exactly when it consists of
      non-empty lines that each end in a newline. */
  lemma {:induction false} JoinCut(p: string)
    ensures Join(Cut(p, NEWLINE)) == p <==> WholeLines(p)
    decreases |p|
  {
    var ts := Cut(p, NEWLINE);
    if p != [] {
      if p[0] in NEWLINE {
        if ts != [] { assert Join(ts)[0] == ts[0][0]; }
      } else {
        var k := Run(p, NEWLINE);
        if k == |p| {
          assert p[..k] == p && p[k..] == [];
          assert p[|p| - 1] !in NEWLINE;
          assert '\n' in NEWLINE;
          assert Join(ts)[|p|] == '\n';
        } else {
          var line, rest := p[..k], p[k + 1..];
          assert p == line + NEWLINE + rest;
          CutLine(line, '\n', rest, NEWLINE);
          assert ts[1..] == Cut(rest, NEWLINE);
          JoinCut(rest);
          WholeLinesStep(line, rest);
          assert Join(ts) == line + NEWLINE + Join(ts[1..]);
          if Join(ts) == p { assert Join(ts)[k + 1..] == rest; }
        }
      }
    }
  }
}
