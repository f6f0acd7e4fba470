/** Printing integers as text and reading them back, with machine-word arithmetic and locale grouping. */
module Lexical {
  import opened Decimal
  import opened Modular

  const CHAR_MAX: int := 127
  const CHAR_MIN: int := -128

  /** Digit grouping of a locale: sizes from the right, the last one repeating, and the separator. */
  datatype Grouping = Grouping(sizes: seq<int>, sep: char) {
    predicate On() { |sizes| > 0 && sizes[0] > 0 }
    predicate Positive() { On() && (forall i :: 0 <= i < |sizes| ==> 0 < sizes[i] <= CHAR_MAX) }
  }

  // ---- reading: what the text says ----

  /** The parser's group number is one byte wide. */
  function NextGroup(g: Grouping, current: nat): (c: nat)
    requires |g.sizes| > 0 && current < |g.sizes|
    ensures c < |g.sizes|
  {
    if current < |g.sizes| - 1 then (current + 1) % 256 else current
  }

  function Decrement(c: int): int { if c == CHAR_MIN then CHAR_MAX else c - 1 }

  /** `s` without the separators found where the grouping expects them, counted from the right; from
      the first place where one is missing on, the text is taken as it is. None when the text
      starts with a separator. */
  function Strip(s: string, g: Grouping, remained: int, current: nat): (d: (bool, string))
    requires |g.sizes| > 0 && current < |g.sizes|
    decreases |s|
  {
    if s == [] then (true, [])
    else
      var c := s[|s| - 1];
      var rest := s[..|s| - 1];
      if remained != 0 then
        var d := Strip(rest, g, Decrement(remained), current);
        (d.0, d.1 + [c])
      else if c != g.sep then (true, s)
      else if rest == [] then (false, [])
      else
        var next := NextGroup(g, current);
        Strip(rest, g, g.sizes[next], next)
  }

  /** The digits of `s`: its separators stripped if the locale groups digits. */
  function Digits(s: string, g: Grouping): (bool, string) {
    if g.On() then Strip(s, g, g.sizes[0], 0) else (true, s)
  }

  /** The texts an unsigned type with `m` values accepts. */
  predicate Readable(s: string, g: Grouping, m: nat) {
    s != [] && Digits(s, g).0 && AllDigits(Digits(s, g).1) && Val(Digits(s, g).1) < m
  }

  // ---- reading: the loop ----

  /** What has been read from the right so far: a suffix of digits, its value, and the weight of its
      first digit modulo `m`. */
  ghost predicate Reading(done: string, value: nat, multiplier: nat, overflowed: bool, m: nat) {
    && done != [] && AllDigits(done) && value == Val(done) && value < m && multiplier < m
    && (overflowed <==> Pow10(|done| - 1) >= m)
    && (!overflowed ==> multiplier == Pow10(|done| - 1))
  }

  /** The three overflow tests on one digit `d` of weight `p`, of which only `w` is known: together
      they fail exactly when the number with that digit no longer fits. */
  lemma DigitTest(p: nat, w: nat, over: bool, d: nat, value: nat, m: nat)
    requires d < 10 <= m && w < m && value < m && (over <==> p >= m) && (!over ==> w == p)
    ensures var sub := (w * d) % m;
            var bad := (d != 0 && sub / d != w) || m - 1 - sub < value || (over && d != 0);
            (!bad <==> d * p + value < m) && (!bad ==> (value + sub) % m == d * p + value)
  {
    var x, dp := w * d, d * p;
    var sub := x % m;
    if d > 0 { WrapShows(w, d, m); }
    MulMonotone(1, d, p);
    assert d == 0 ==> x == 0 && dp == 0;
    assert !over ==> dp == x;
    SumTest(x, sub, d != 0 && sub / d != w, dp, d, value, m, over);
  }

  lemma SumTest(x: nat, sub: nat, wrong: bool, dp: nat, d: nat, value: nat, m: nat, over: bool)
    requires m > 0 && value < m && sub == x % m && (wrong <==> d != 0 && x >= m)
    requires (d == 0 ==> x == 0 && dp == 0) && (!over ==> dp == x) && (over && d != 0 ==> dp >= m)
    ensures var bad := wrong || m - 1 - sub < value || (over && d != 0);
            (!bad <==> dp + value < m) && (!bad ==> (value + sub) % m == dp + value)
  {
    if x < m { assert sub == x; }
    if value + sub < m { assert (value + sub) % m == value + sub; }
  }

  lemma WeightTest(k: nat, w: nat, over: bool, m: nat)
    requires m >= 10 && w < m && (over <==> Pow10(k) >= m) && (!over ==> w == Pow10(k))
    ensures var w10 := (w * 10) % m;
            var over' := over || w10 / 10 != w;
            w10 < m && (over' <==> Pow10(k + 1) >= m) && (!over' ==> w10 == Pow10(k + 1))
  {
    WrapShows(w, 10, m);
  }

  /** One more digit to the left, with the source's overflow tests. */
  method ReadDigit(c: char, value: nat, multiplier: nat, overflowed: bool, m: nat, ghost done: string)
      returns (ok: bool, value': nat, multiplier': nat, overflowed': bool)
    requires m >= 10 && Reading(done, value, multiplier, overflowed, m)
    ensures ok <==> IsDigit(c) && Val([c] + done) < m
    ensures ok ==> Reading([c] + done, value', multiplier', overflowed', m)
  {
    var multiplier10 := (multiplier * 10) % m;
    value', multiplier', overflowed' := value, multiplier10, overflowed;
    if multiplier10 / 10 != multiplier {
      overflowed' := true;
    }
    WeightTest(|done| - 1, multiplier, overflowed, m);
    assert ([c] + done)[1..] == done;
    if !IsDigit(c) {
      return false, value', multiplier', overflowed';
    }
    var digValue := DigitOf(c);
    var newSubValue := (multiplier10 * digValue) % m;
    DigitTest(Pow10(|done|), multiplier10, overflowed', digValue, value, m);
    ok := !((digValue != 0 && newSubValue / digValue != multiplier10)
            || m - 1 - newSubValue < value
            || (overflowed' && digValue != 0));
    value' := (value + newSubValue) % m;
  }

  /** A suffix that is no number, or too large a one, spoils the whole text. */
  lemma BadSuffix(x: string, y: string, m: nat)
    requires !AllDigits(y) || Val(y) >= m
    ensures !AllDigits(x + y) || Val(x + y) >= m
  {
    if AllDigits(x + y) {
      assert (x + y)[|x|..] == y;
      assert AllDigits(y) by { forall i | 0 <= i < |y| ensures IsDigit(y[i]) { assert (x + y)[|x| + i] == y[i]; } }
      ValSuffix(x + y, |x|);
    }
  }

  /** `s` splits into the digits read so far and what stripping the rest gives. */
  ghost predicate Split(s: string, g: Grouping, rest: (bool, string), done: string) {
    Digits(s, g) == (rest.0, rest.1 + done)
  }

  lemma SplitBad(s: string, g: Grouping, rest: (bool, string), c: char, done: string, m: nat)
    requires Split(s, g, (rest.0, rest.1 + [c]), done) && (!IsDigit(c) || Val([c] + done) >= m)
    ensures !Readable(s, g, m)
  {
    if !IsDigit(c) { assert !IsDigit(([c] + done)[0]); }
    BadSuffix(rest.1, [c] + done, m);
    assert rest.1 + [c] + done == rest.1 + ([c] + done);
  }

  /** Without grouping, or from where a separator is missing on: plain digits to the front. */
  method ReadPlain(s: string, g: Grouping, m: nat, start: nat, value0: nat, multiplier0: nat, overflowed0: bool,
      ghost done0: string)
      returns (ok: bool, value: nat)
    requires m >= 10 && start <= |s| && Reading(done0, value0, multiplier0, overflowed0, m)
      && Split(s, g, (true, s[..start]), done0)
    ensures ok <==> Readable(s, g, m)
    ensures ok ==> value == Val(Digits(s, g).1)
  {
    var end, multiplier, overflowed := start, multiplier0, overflowed0;
    ghost var done := done0;
    value := value0;
    while end > 0
      invariant 0 <= end <= |s| && Reading(done, value, multiplier, overflowed, m)
        && Split(s, g, (true, s[..end]), done)
    {
      end := end - 1;
      assert s[..end + 1] == s[..end] + [s[end]];
      var good, v, w, f := ReadDigit(s[end], value, multiplier, overflowed, m, done);
      if !good {
        SplitBad(s, g, (true, s[..end]), s[end], done, m);
        return false, v;
      }
      value, multiplier, overflowed := v, w, f;
      assert s[..end] + [s[end]] + done == s[..end] + ([s[end]] + done);
      done := [s[end]] + done;
    }
    assert s[..0] + done == done;
    ok := true;
  }

  /** With grouping: digits and separators in turn, until one is missing. */
  method ReadGrouped(s: string, g: Grouping, m: nat, start: nat, value0: nat, ghost done0: string)
      returns (ok: bool, value: nat)
    requires m >= 10 && g.On() && start <= |s| && Reading(done0, value0, 1, false, m)
    requires Split(s, g, Strip(s[..start], g, g.sizes[0] - 1, 0), done0)
    ensures ok <==> Readable(s, g, m)
    ensures ok ==> value == Val(Digits(s, g).1)
  {
    var end, multiplier, overflowed := start, 1, false;
    var current, remained := 0, g.sizes[0] - 1;
    ghost var done := done0;
    value := value0;
    while end > 0
      invariant 0 <= end <= |s| && Reading(done, value, multiplier, overflowed, m) && current < |g.sizes|
      invariant Split(s, g, Strip(s[..end], g, remained, current), done)
    {
      var c := s[end - 1];
      ghost var left := s[..end - 1];
      assert s[..end][..end - 1] == left;
      if remained != 0 {
        ghost var d := Strip(left, g, Decrement(remained), current);
        assert Strip(s[..end], g, remained, current) == (d.0, d.1 + [c]);
        var good, v, w, f := ReadDigit(c, value, multiplier, overflowed, m, done);
        if !good {
          SplitBad(s, g, d, c, done, m);
          return false, v;
        }
        value, multiplier, overflowed := v, w, f;
        assert d.1 + [c] + done == d.1 + ([c] + done);
        done := [c] + done;
        remained := Decrement(remained);
      } else if c != g.sep {
        ok, value := ReadPlain(s, g, m, end, value, multiplier, overflowed, done);
        return;
      } else {
        if end == 1 { return false, value; }
        current := NextGroup(g, current);
        remained := g.sizes[current];
      }
      end := end - 1;
    }
    assert s[..0] == [] && [] + done == done;
    ok := true;
  }

  /** Reads an unsigned number: exactly the non-empty texts whose digits, once separators are stripped,
      make a number the type can hold. */
  method RetUnsigned(s: string, g: Grouping, m: nat) returns (ok: bool, value: nat)
    requires m >= 10
    ensures ok <==> Readable(s, g, m)
    ensures ok ==> value == Val(Digits(s, g).1)
  {
    var end := |s|;
    value := 0;
    if end == 0 { return false, 0; }
    end := end - 1;
    assert s == s[..end] + [s[end]];
    ghost var rest := if g.On() then Strip(s[..end], g, g.sizes[0] - 1, 0) else (true, s[..end]);
    assert Digits(s, g) == (rest.0, rest.1 + [s[end]]);
    if !IsDigit(s[end]) {
      BadSuffix(rest.1, [s[end]], m);
      assert !IsDigit([s[end]][0]);
      return false, 0;
    }
    value := DigitOf(s[end]);
    ghost var done := [s[end]];
    assert Val(done) == value by { assert done[1..] == []; }
    if g.On() {
      ok, value := ReadGrouped(s, g, m, end, value, done);
    } else {
      ok, value := ReadPlain(s, g, m, end, value, 1, false, done);
    }
  }

  // ---- printing ----

  /** `n` printed from the right, `left` digits before the next separator, in group `group`. */
  function Render(n: nat, g: Grouping, left: nat, last: nat, group: nat): string
    requires last > 0
    decreases n, left == 0
  {
    if left == 0 then
      var size := LastSize(g, last, group + 1);
      Render(n, g, size, size, group + 1) + [g.sep]
    else
      (if n < 10 then [] else Render(n / 10, g, left - 1, last, group)) + [DigitChar(n % 10)]
  }

  /** The size of group `group`: sizes that are not positive mean no further separator. */
  function LastSize(g: Grouping, last: nat, group: nat): (r: nat)
    requires last > 0
    ensures r > 0
  {
    if group < |g.sizes| then (if g.sizes[group] <= 0 then CHAR_MAX else g.sizes[group]) else last
  }

  function Printed(n: nat, g: Grouping): string {
    if g.On() then Render(n, g, g.sizes[0], g.sizes[0], 0) else Plain(n)
  }

  lemma {:induction false} RenderLength(n: nat, g: Grouping, left: nat, last: nat, group: nat)
    requires last > 0
    ensures 0 < |Render(n, g, left, last, group)| <= 2 * |Plain(n)| - (if left > 0 then 1 else 0)
    decreases n, left == 0
  {
    if left == 0 {
      var size := LastSize(g, last, group + 1);
      RenderLength(n, g, size, size, group + 1);
    } else if n >= 10 {
      RenderLength(n / 10, g, left - 1, last, group);
    }
  }

  /** Whatever the grouping, a number of `digits10 + 1` digits is printed in at most 2 * digits10 + 1 characters. */
  lemma PrintedFits(n: nat, g: Grouping, digits10: nat)
    requires n < Pow10(digits10 + 1)
    ensures |Printed(n, g)| <= 2 * digits10 + 1
  {
    PlainLength(n, digits10 + 1);
    if g.On() { RenderLength(n, g, g.sizes[0], g.sizes[0], 0); }
  }

  function Min(a: nat, b: nat): nat { if a < b then a else b }

  lemma StripDigit(rest: string, d: char, g: Grouping, remained: nat, current: nat, digits: string)
    requires |g.sizes| > 0 && current < |g.sizes| && remained > 0
    requires Strip(rest, g, remained - 1, current) == (true, digits)
    ensures Strip(rest + [d], g, remained, current) == (true, digits + [d])
  {
    assert (rest + [d])[..|rest|] == rest;
  }

  lemma StripSeparator(s: string, g: Grouping, current: nat)
    requires |g.sizes| > 0 && current < |g.sizes| && s != []
    ensures Strip(s + [g.sep], g, 0, current) == Strip(s, g, g.sizes[NextGroup(g, current)], NextGroup(g, current))
  {
    assert (s + [g.sep])[..|s|] == s;
  }

  /** The parser's group for the printer's group `group`. */
  function GroupOf(g: Grouping, group: nat): nat
    requires |g.sizes| > 0
  {
    Min(group, |g.sizes| - 1)
  }

  lemma SeparatorStrips(n: nat, g: Grouping, group: nat, digits: string)
    requires g.Positive() && group < 255
    requires var size := g.sizes[GroupOf(g, group + 1)];
             Strip(Render(n, g, size, size, group + 1), g, size, GroupOf(g, group + 1)) == (true, digits)
    ensures Strip(Render(n, g, 0, g.sizes[GroupOf(g, group)], group), g, 0, GroupOf(g, group)) == (true, digits)
  {
    var size := g.sizes[GroupOf(g, group + 1)];
    SameGroups(g, group);
    RenderLength(n, g, size, size, group + 1);
    StripSeparator(Render(n, g, size, size, group + 1), g, GroupOf(g, group));
    assert Render(n, g, 0, g.sizes[GroupOf(g, group)], group) == Render(n, g, size, size, group + 1) + [g.sep];
  }

  /** Printer and parser go on to the same group. */
  lemma SameGroups(g: Grouping, group: nat)
    requires g.Positive() && group < 255
    ensures LastSize(g, g.sizes[GroupOf(g, group)], group + 1) == g.sizes[GroupOf(g, group + 1)]
    ensures NextGroup(g, GroupOf(g, group)) == GroupOf(g, group + 1)
  {
  }

  lemma DigitStrips(n: nat, g: Grouping, left: nat, group: nat)
    requires |g.sizes| > 0 && g.sizes[GroupOf(g, group)] > 0 && left > 0
    requires n >= 10 ==> Strip(Render(n / 10, g, left - 1, g.sizes[GroupOf(g, group)], group), g, left - 1,
      GroupOf(g, group)) == (true, Plain(n / 10))
    ensures Strip(Render(n, g, left, g.sizes[GroupOf(g, group)], group), g, left, GroupOf(g, group)) == (true, Plain(n))
  {
    var last := g.sizes[GroupOf(g, group)];
    if n < 10 {
      StripDigit([], DigitChar(n), g, left, GroupOf(g, group), []);
      assert [] + [DigitChar(n)] == [DigitChar(n)];
    } else {
      StripDigit(Render(n / 10, g, left - 1, last, group), DigitChar(n % 10), g, left, GroupOf(g, group),
          Plain(n / 10));
    }
  }

  /** More digits than any integer type has; beyond twice as many the parser's one-byte group
      counter could wrap. */
  const MAX_DIGITS: nat := 127

  /** What the printer puts in, the parser takes out again. */
  lemma {:induction false} RenderStrips(n: nat, g: Grouping, left: nat, group: nat)
    requires g.Positive() && 0 < left && group + |Plain(n)| <= 256
    ensures Strip(Render(n, g, left, g.sizes[GroupOf(g, group)], group), g, left, GroupOf(g, group)) == (true, Plain(n))
    decreases n
  {
    if n < 10 {
      DigitStrips(n, g, left, group);
    } else if left > 1 {
      PlainShrinks(n);
      RenderStrips(n / 10, g, left - 1, group);
      DigitStrips(n, g, left, group);
    } else {
      PlainShrinks(n);
      RenderStrips(n / 10, g, g.sizes[GroupOf(g, group + 1)], group + 1);
      GroupStrips(n, g, group);
    }
  }

  /** The last digit of a group, before a separator. */
  lemma GroupStrips(n: nat, g: Grouping, group: nat)
    requires g.Positive() && group < 255 && n >= 10
    requires var size := g.sizes[GroupOf(g, group + 1)];
      Strip(Render(n / 10, g, size, size, group + 1), g, size, GroupOf(g, group + 1)) == (true, Plain(n / 10))
    ensures Strip(Render(n, g, 1, g.sizes[GroupOf(g, group)], group), g, 1, GroupOf(g, group)) == (true, Plain(n))
  {
    SeparatorStrips(n / 10, g, group, Plain(n / 10));
    DigitStrips(n, g, 1, group);
  }

  lemma PlainShrinks(n: nat)
    requires n >= 10
    ensures |Plain(n / 10)| == |Plain(n)| - 1
  {
  }

  /** Grouped printing, then grouped reading, gives the digits back. */
  lemma PrintedReadable(n: nat, g: Grouping, m: nat)
    requires n < m && (g.On() ==> g.Positive()) && |Plain(n)| <= MAX_DIGITS
    ensures Readable(Printed(n, g), g, m) && Val(Digits(Printed(n, g), g).1) == n
  {
    ValPlain(n);
    if g.On() { RenderStrips(n, g, g.sizes[0], 0); }
  }

  /** Writes the digits from the right end of a buffer and returns where they start. */
  method PutUnsigned(n: nat, g: Grouping, buf: array<char>, finish: nat) returns (start: nat)
    requires |Printed(n, g)| <= finish <= buf.Length
    modifies buf
    ensures start == finish - |Printed(n, g)| && buf[start..finish] == Printed(n, g)
    ensures buf[..start] == old(buf[..start]) && buf[finish..] == old(buf[finish..])
  {
    if g.On() {
      start := PutGrouped(n, g, buf, finish);
    } else {
      start := PutPlain(n, buf, finish);
    }
  }

  method PutPlain(n0: nat, buf: array<char>, finish: nat) returns (start: nat)
    requires |Plain(n0)| <= finish <= buf.Length
    modifies buf
    ensures start == finish - |Plain(n0)| && buf[start..finish] == Plain(n0)
    ensures buf[..start] == old(buf[..start]) && buf[finish..] == old(buf[finish..])
  {
    var n, more := n0, true;
    start := finish;
    while more
      invariant 0 <= start <= finish
      invariant if more then Plain(n) + buf[start..finish] == Plain(n0) else buf[start..finish] == Plain(n0)
      invariant buf[..start] == old(buf[..start]) && buf[finish..] == old(buf[finish..])
      decreases more, n
    {
      ghost var tail := buf[start..finish];
      start := start - 1;
      buf[start] := DigitChar(n % 10);
      assert buf[start..finish] == [DigitChar(n % 10)] + tail;
      more := n >= 10;
      n := n / 10;
    }
  }

  method PutGrouped(n0: nat, g: Grouping, buf: array<char>, finish: nat) returns (start: nat)
    requires g.On() && |Printed(n0, g)| <= finish <= buf.Length
    modifies buf
    ensures start == finish - |Printed(n0, g)| && buf[start..finish] == Printed(n0, g)
    ensures buf[..start] == old(buf[..start]) && buf[finish..] == old(buf[finish..])
  {
    var n, more := n0, true;
    var group, lastSize, left := 0, g.sizes[0], g.sizes[0];
    start := finish;
    ghost var whole := Printed(n0, g);
    assert whole + buf[start..finish] == whole;
    while more
      invariant 0 <= start <= finish && lastSize > 0 && left >= 0 && group >= 0
      invariant (if more then Render(n, g, left, lastSize, group) else []) + buf[start..finish] == whole
      invariant forall i :: 0 <= i < start || finish <= i < buf.Length ==> buf[i] == old(buf[i])
      decreases more, n
    {
      start, left, lastSize, group := PutNext(n, g, buf, start, finish, left, lastSize, group, whole);
      more := n >= 10;
      n := n / 10;
    }
    Written(buf[start..finish], whole);
  }

  lemma Written(text: string, whole: string)
    requires [] + text == whole
    ensures text == whole
  {
  }

  /** A separator if its turn has come, then a digit. */
  method PutNext(n: nat, g: Grouping, buf: array<char>, start0: nat, finish: nat,
                 left0: nat, last0: nat, group0: nat, ghost whole: string)
      returns (start: nat, left: nat, last: nat, group: nat)
    requires start0 <= finish <= buf.Length && |whole| <= finish && last0 > 0
    requires Render(n, g, left0, last0, group0) + buf[start0..finish] == whole
    modifies buf
    ensures start <= finish && last > 0
    ensures (if n < 10 then [] else Render(n / 10, g, left, last, group)) + buf[start..finish] == whole
    ensures start <= start0 && forall i :: 0 <= i < start || finish <= i < buf.Length ==> buf[i] == old(buf[i])
  {
    start, left, last, group := PutSeparator(n, g, buf, start0, finish, left0, last0, group0, whole);
    start := PutDigit(n, g, buf, start, finish, left, last, group, whole);
    left := left - 1;
  }

  /** At the end of a group: the separator, and on to the next group. */
  method PutSeparator(n: nat, g: Grouping, buf: array<char>, start0: nat, finish: nat,
                      left0: nat, last0: nat, group0: nat, ghost whole: string)
      returns (start: nat, left: nat, last: nat, group: nat)
    requires start0 <= finish <= buf.Length && |whole| <= finish && last0 > 0
    requires Render(n, g, left0, last0, group0) + buf[start0..finish] == whole
    modifies buf
    ensures start <= finish && left > 0 && last > 0
    ensures Render(n, g, left, last, group) + buf[start..finish] == whole
    ensures start <= start0 && forall i :: 0 <= i < start || finish <= i < buf.Length ==> buf[i] == old(buf[i])
  {
    start, left, last, group := start0, left0, last0, group0;
    if left == 0 {
      group := group + 1;
      last := LastSize(g, last, group);
      left := last;
      start := PutOne(g.sep, buf, start0, finish, Render(n, g, left, last, group), whole);
    }
  }

  method PutDigit(n: nat, g: Grouping, buf: array<char>, start0: nat, finish: nat,
                  left: nat, last: nat, group: nat, ghost whole: string)
      returns (start: nat)
    requires start0 <= finish <= buf.Length && |whole| <= finish && last > 0 && left > 0
    requires Render(n, g, left, last, group) + buf[start0..finish] == whole
    modifies buf
    ensures start <= finish
    ensures (if n < 10 then [] else Render(n / 10, g, left - 1, last, group)) + buf[start..finish] == whole
    ensures start <= start0 && forall i :: 0 <= i < start || finish <= i < buf.Length ==> buf[i] == old(buf[i])
  {
    ghost var less := if n < 10 then [] else Render(n / 10, g, left - 1, last, group);
    start := PutOne(DigitChar(n % 10), buf, start0, finish, less, whole);
  }

  /** One character further down: what is left to write and what is written still make up `whole`. */
  method PutOne(c: char, buf: array<char>, finish: nat, ghost limit: nat, ghost less: string, ghost whole: string)
      returns (start: nat)
    requires finish <= limit <= buf.Length && |whole| <= limit
    requires less + [c] + buf[finish..limit] == whole
    modifies buf
    ensures start == finish - 1 && less + buf[start..limit] == whole
    ensures forall i :: 0 <= i < start || limit <= i < buf.Length ==> buf[i] == old(buf[i])
  {
    ghost var tail := buf[finish..limit];
    assert |less + [c] + tail| == |less| + 1 + limit - finish;
    start := finish - 1;
    buf[start] := c;
    assert buf[start..limit] == [c] + tail;
    assert less + ([c] + tail) == less + [c] + tail;
  }

  // ---- signed numbers ----

  /** The magnitude of a signed value, computed in the unsigned type with `m` values. */
  function ToUnsigned(v: int, m: int): (u: nat)
    requires m > 0 && -m < v < m
    ensures u == if v < 0 then -v else v
  {
    if v < 0 then
      ModUnique(v, m, -1, v + m);
      ModUnique(0 - (v + m), m, -1, 0 - v);
      (0 - v % m) % m
    else v
  }

  function PrintedSigned(v: int, g: Grouping): string {
    if v < 0 then ['-'] + Printed(-v, g) else Printed(v, g)
  }

  predicate HasSign(s: string) { s != [] && (s[0] == '-' || s[0] == '+') }

  function Unsigned(s: string): string { if HasSign(s) then s[1..] else s }

  /** The number a signed text stands for. */
  function SignedVal(s: string, g: Grouping): int {
    if s != [] && s[0] == '-' then -Val(Digits(Unsigned(s), g).1) else Val(Digits(Unsigned(s), g).1)
  }

  predicate IsNumber(s: string, g: Grouping) {
    Unsigned(s) != [] && Digits(Unsigned(s), g).0 && AllDigits(Digits(Unsigned(s), g).1)
  }

  /** Writes a signed value at the end of a buffer. For a type whose magnitudes have at most
      `digits10 + 1` digits the source's buffer of 2 * digits10 + 2 characters always suffices. */
  method ShlSigned(v: int, half: int, g: Grouping, digits10: nat, buf: array<char>) returns (start: nat)
    requires half > 0 && -half <= v < half && half < Pow10(digits10 + 1) && buf.Length == 2 * digits10 + 2
    modifies buf
    ensures start <= buf.Length && buf[start..] == PrintedSigned(v, g)
  {
    var u := ToUnsigned(v, 2 * half);
    PrintedFits(u, g, digits10);
    start := PutUnsigned(u, g, buf, buf.Length);
    if v < 0 {
      ghost var text := buf[start..];
      start := start - 1;
      buf[start] := '-';
      assert buf[start..] == ['-'] + text;
    }
  }

  /** An unsigned word taken as a signed one. */
  function AsSigned(u: int, half: int): int { if u < half then u else u - 2 * half }

  lemma NegatedMod(u: int, m: int)
    requires 0 <= u < m
    ensures (0 - u) % m == if u == 0 then 0 else m - u
  {
    if u == 0 {
      ModUnique(0, m, 0, 0);
    } else {
      ModUnique(0 - u, m, -1, m - u);
    }
  }

  lemma NegatedWord(u: int, half: int)
    requires 0 <= u <= half && half > 0
    ensures AsSigned((0 - u) % (2 * half), half) == -u
  {
    NegatedMod(u, 2 * half);
  }

  lemma NumberIsNonNegative(s: string, g: Grouping)
    requires IsNumber(s, g)
    ensures Val(Digits(Unsigned(s), g).1) >= 0
  {
    ValNonNegative(Digits(Unsigned(s), g).1);
  }

  /** Reads a signed value: accepts exactly the numbers in the type's range, which is -half .. half - 1. */
  method ShrSigned(s: string, g: Grouping, half: int) returns (ok: bool, value: int)
    requires half >= 5
    ensures ok <==> IsNumber(s, g) && -half <= SignedVal(s, g) < half
    ensures ok ==> value == SignedVal(s, g)
  {
    if IsNumber(s, g) { NumberIsNonNegative(s, g); }
    value := 0;
    if s == [] { return false, 0; }
    var minus := s[0] == '-';
    var tmp;
    ok, tmp := RetUnsigned(if minus || s[0] == '+' then s[1..] else s, g, 2 * half);
    if minus {
      ok := ok && tmp <= half;
      value := AsSigned((0 - tmp) % (2 * half), half);
      if ok { NegatedWord(tmp, half); }
    } else {
      ok := ok && tmp <= half - 1;
      value := tmp;
    }
  }

  lemma SmallMod(a: int, m: int)
    requires 0 <= a < m
    ensures a % m == a
  {
  }

  /** Reads an unsigned value with an optional sign; a minus wraps the number around. */
  method ShrUnsigned(s: string, g: Grouping, m: nat) returns (ok: bool, value: nat)
    requires m >= 10
    ensures ok <==> s != [] && Readable(Unsigned(s), g, m)
    ensures ok ==> value == SignedVal(s, g) % m
  {
    value := 0;
    if s == [] { return false, 0; }
    var minus := s[0] == '-';
    ok, value := RetUnsigned(if minus || s[0] == '+' then s[1..] else s, g, m);
    if minus {
      value := (0 - value) % m;
    } else if ok {
      SmallMod(value, m);
    }
  }

  lemma {:induction false} RenderStartsWithDigit(n: nat, g: Grouping, left: nat, last: nat, group: nat)
    requires last > 0
    ensures Render(n, g, left, last, group) != [] && IsDigit(Render(n, g, left, last, group)[0])
    decreases n, left == 0
  {
    if left == 0 {
      var size := LastSize(g, last, group + 1);
      RenderStartsWithDigit(n, g, size, size, group + 1);
    } else if n >= 10 {
      RenderStartsWithDigit(n / 10, g, left - 1, last, group);
    }
  }

  lemma PrintedStarts(n: nat, g: Grouping)
    ensures Printed(n, g) != [] && IsDigit(Printed(n, g)[0])
  {
    if g.On() { RenderStartsWithDigit(n, g, g.sizes[0], g.sizes[0], 0); }
  }

  /** Printing any value of the type, the smallest included, and reading it back gives that value,
      under no grouping and under every grouping with positive sizes. */
  lemma SignedRoundTrip(v: int, half: int, g: Grouping)
    requires half >= 5 && -half <= v < half && half < Pow10(MAX_DIGITS) && (g.On() ==> g.Positive())
    ensures IsNumber(PrintedSigned(v, g), g) && SignedVal(PrintedSigned(v, g), g) == v
  {
    var u := if v < 0 then -v else v;
    PlainLength(u, MAX_DIGITS);
    PrintedReadable(u, g, 2 * half);
    PrintedStarts(u, g);
    SignRead(v, u, g);
  }

  lemma SignRead(v: int, u: nat, g: Grouping)
    requires u == (if v < 0 then -v else v) && Printed(u, g) != [] && IsDigit(Printed(u, g)[0])
    ensures Unsigned(PrintedSigned(v, g)) == Printed(u, g)
    ensures SignedVal(PrintedSigned(v, g), g) ==
      if v < 0 then -Val(Digits(Printed(u, g), g).1) else Val(Digits(Printed(u, g), g).1)
  {
    if v < 0 { assert PrintedSigned(v, g)[1..] == Printed(u, g); }
  }
}
