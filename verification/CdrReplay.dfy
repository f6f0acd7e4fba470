/** What the rows of the database tell, read off the records posted for each session. */
module CdrReplay {
  import opened CallTables
  import opened CallSteps
  import opened CallRuns
  import opened CdrRows
  import opened CdrBook
  import opened CallRecords

  ghost predicate AllLegal(rs: seq<Cdr>) { forall u: string :: LegalHistory(History(rs, u)) }

  /** Carrier and trunk of the last attempt recorded for session `u` once it was known. */
  function Routed(rs: seq<Cdr>, u: string): (string, string) {
    if rs == [] then ("", "")
    else
      var front, c := rs[..|rs| - 1], rs[|rs| - 1];
      if c.kind == TerminationTry && c.uuid == u && History(front, u) != [] then (c.carrier, c.trunk)
      else Routed(front, u)
  }

  /** Status, times and cause of a session from its history. */
  function RowFrom(h: seq<Cdr>, route: (string, string)): SessionRow
    requires h != [] && LegalHistory(h)
  {
    var start, last := h[0].start, h[|h| - 1];
    if |h| == 1 then SessionRow(start, 0, last.end, last.status, last.cause, route.0, route.1)
    else if last.kind == OriginationCancel then SessionRow(start, 0, last.end, 487, Canceled, route.0, route.1)
    else if last.kind == OriginationFinal && last.status == 200 then
      SessionRow(start, last.connect, 0, 200, NoCause, route.0, route.1)
    else if last.kind == OriginationFinal then
      SessionRow(start, 0, last.end, last.status, TerminationCarriers, route.0, route.1)
    else if |h| == 2 then SessionRow(start, 0, last.end, 0, last.cause, route.0, route.1)
    else SessionRow(start, h[1].connect, last.end, 200, last.cause, route.0, route.1)
  }

  lemma LegalPrefix(h: seq<Cdr>, c: Cdr)
    requires LegalHistory(h + [c])
    ensures LegalHistory(h)
  {
    assert forall i :: 0 <= i < |h| ==> (h + [c])[i] == h[i];
  }

  lemma FrontLegal(rs: seq<Cdr>, c: Cdr)
    requires AllLegal(rs + [c])
    ensures AllLegal(rs)
  {
    forall u: string ensures LegalHistory(History(rs, u)) {
      HistorySnoc(rs, c, u);
      assert LegalHistory(History(rs + [c], u));
      if c.uuid == u && c.kind != TerminationTry { LegalPrefix(History(rs, u), c); }
    }
  }

  lemma RoutedSnoc(rs: seq<Cdr>, c: Cdr, u: string)
    ensures Routed(rs + [c], u) ==
      if c.kind == TerminationTry && c.uuid == u && History(rs, u) != [] then (c.carrier, c.trunk) else Routed(rs, u)
  {
    assert (rs + [c])[..|rs|] == rs;
  }

  /** What a session's row holds: nothing before its request, then what its history and its last
      attempt say. */
  ghost predicate Tells(db: Db, h: seq<Cdr>, route: (string, string), u: string) {
    if h == [] then u !in db.sessions && route == ("", "")
    else LegalHistory(h) && u in db.sessions && db.sessions[u] == RowFrom(h, route)
  }

  lemma WriteTells(db: Db, c: Cdr, h: seq<Cdr>, route: (string, string), u: string)
    requires Tells(db, h, route, u) && LegalHistory(h)
    requires c.uuid == u && c.kind != TerminationTry ==> LegalHistory(h + [c])
    ensures var hit := c.uuid == u && c.kind != TerminationTry;
      var now := if c.kind == TerminationTry && c.uuid == u && h != [] then (c.carrier, c.trunk) else route;
      Tells(Write(db, c), if hit then h + [c] else h, now, u)
  {
    if c.uuid == u && c.kind != TerminationTry {
      HitTells(db, c, h, route, u);
    } else {
      MissTells(db, c, h, route, u);
    }
  }

  lemma HitTells(db: Db, c: Cdr, h: seq<Cdr>, route: (string, string), u: string)
    requires Tells(db, h, route, u) && c.uuid == u && c.kind != TerminationTry && LegalHistory(h + [c])
    ensures Tells(Write(db, c), h + [c], route, u)
  {
    var g := h + [c];
    assert g[|g| - 1] == c && (h != [] ==> g[0] == h[0]) && (|h| == 2 ==> g[1] == h[1]);
  }

  lemma MissTells(db: Db, c: Cdr, h: seq<Cdr>, route: (string, string), u: string)
    requires Tells(db, h, route, u) && (c.uuid != u || c.kind == TerminationTry)
    ensures Tells(Write(db, c), h,
                  if c.kind == TerminationTry && c.uuid == u && h != [] then (c.carrier, c.trunk) else route, u)
  {
  }

  /** The row of every session is what its own records say. */
  lemma {:induction false} RowsTell(rs: seq<Cdr>, u: string)
    requires AllLegal(rs)
    ensures Tells(Replay(rs), History(rs, u), Routed(rs, u), u)
  {
    if rs != [] {
      var front, c := rs[..|rs| - 1], rs[|rs| - 1];
      assert rs == front + [c];
      FrontLegal(front, c);
      RowsTell(front, u);
      HistorySnoc(front, c, u);
      RoutedSnoc(front, c, u);
      ReplaySnoc(front, c);
      assert LegalHistory(History(rs, u)) && LegalHistory(History(front, u));
      WriteTells(Replay(front), c, History(front, u), Routed(front, u), u);
    }
  }

  // ---- attempts ----

  /** The records of attempts for sessions already known, in order. */
  function Tries(rs: seq<Cdr>): seq<Cdr> {
    if rs == [] then []
    else
      var front, c := rs[..|rs| - 1], rs[|rs| - 1];
      Tries(front) + if c.kind == TerminationTry && History(front, c.uuid) != [] then [c] else []
  }

  /** A row of an attempt shows its record; only the end of an answered one is set later. */
  predicate ShowsTry(r: TryRow, c: Cdr) {
    && r.uuid == c.uuid && r.start == c.start && r.status == c.status && r.carrier == c.carrier && r.trunk == c.trunk
    && (if c.status == 200 then r.connect == c.connect else r.connect == 0 && r.end == c.end)
  }

  ghost predicate ShowsTries(rows: seq<TryRow>, cs: seq<Cdr>) {
    |rows| == |cs| && forall i :: 0 <= i < |cs| ==> ShowsTry(rows[i], cs[i])
  }

  lemma {:induction false} TriesTell(rs: seq<Cdr>)
    requires AllLegal(rs)
    ensures ShowsTries(Replay(rs).tries, Tries(rs))
  {
    if rs != [] {
      var front, c := rs[..|rs| - 1], rs[|rs| - 1];
      assert rs == front + [c];
      FrontLegal(front, c);
      TriesTell(front);
      RowsTell(front, c.uuid);
      ReplaySnoc(front, c);
      WriteTries(Replay(front), c, Tries(front), History(front, c.uuid) != []);
    }
  }

  lemma WriteTries(db: Db, c: Cdr, cs: seq<Cdr>, known: bool)
    requires ShowsTries(db.tries, cs) && (known <==> c.uuid in db.sessions)
    ensures ShowsTries(Write(db, c).tries, cs + if c.kind == TerminationTry && known then [c] else [])
  {
    if c.kind == CallCleared {
      forall i | 0 <= i < |cs| ensures ShowsTry(EndTries(db.tries, c.uuid, c.end)[i], cs[i]) {
        assert ShowsTry(db.tries[i], cs[i]);
      }
    }
  }

  /** The end of a call ends its answered attempts and no others. */
  lemma ClearedEndsTries(rs: seq<Cdr>, c: Cdr, i: nat)
    requires c.kind == CallCleared && i < |Replay(rs).tries|
    ensures i < |Replay(rs + [c]).tries|
    ensures var was, r := Replay(rs).tries[i], Replay(rs + [c]).tries[i];
      if was.uuid == c.uuid && was.status == 200 then r.end == c.end else r == was
  {
    ReplaySnoc(rs, c);
  }

  // ---- runs ----

  /** In every run: each session's row, and each attempt's, is what the records posted say. */
  lemma RunRowsTell(retries: nat, es: seq<Event>, u: string)
    requires Legal(Init(retries), es)
    ensures var rs := Records(Exec(Init(retries), es).log);
      AllLegal(rs) && Tells(Replay(rs), History(rs, u), Routed(rs, u), u) && ShowsTries(Replay(rs).tries, Tries(rs))
  {
    InitKeepsInv(retries);
    InitBooked(retries);
    RunBooked(Init(retries), es);
    var rs := Records(Exec(Init(retries), es).log);
    assert AllLegal(rs);
    RowsTell(rs, u);
    TriesTell(rs);
  }
}
