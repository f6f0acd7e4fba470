/** What the records posted so far say about each session, and how one more record changes it. */
module CdrBook {
  import opened Options
  import opened CallTables
  import opened CdrRows

  /** The records of session `u` itself, without its termination attempts. */
  function History(rs: seq<Cdr>, u: string): seq<Cdr> {
    if rs == [] then []
    else
      var h := History(rs[..|rs| - 1], u);
      var c := rs[|rs| - 1];
      if c.uuid == u && c.kind != TerminationTry then h + [c] else h
  }

  lemma HistorySnoc(rs: seq<Cdr>, c: Cdr, u: string)
    ensures History(rs + [c], u) ==
      if c.uuid == u && c.kind != TerminationTry then History(rs, u) + [c] else History(rs, u)
  {
    assert (rs + [c])[..|rs|] == rs;
  }

  /** A prefix of request-cancel, request-final(not 200), request-final(200)-cleared or
      request-cleared, or a request refused on the spot. */
  ghost predicate LegalHistory(h: seq<Cdr>) {
    && |h| <= 3
    && (|h| >= 1 ==> h[0].kind == OriginationRequest)
    && (|h| >= 2 ==> h[0].status == 0 && h[1].kind in {OriginationCancel, OriginationFinal, CallCleared})
    && (|h| >= 3 ==> h[1].kind == OriginationFinal && h[1].status == 200 && h[2].kind == CallCleared)
  }

  /** Connected exactly when answered with 200, and start <= connect <= end where set. */
  ghost predicate TimesOk(start: nat, connect: nat, end: nat, status: nat, clock: nat) {
    && 1 <= start <= clock
    && (connect != 0 <==> status == 200)
    && (connect != 0 ==> start <= connect <= clock)
    && (end != 0 ==> start <= end <= clock && (connect != 0 ==> connect <= end))
  }

  ghost predicate RowOk(r: SessionRow, clock: nat) { TimesOk(r.start, r.connect, r.end, r.status, clock) }

  ghost predicate TryOk(r: TryRow, clock: nat) { TimesOk(r.start, r.connect, r.end, r.status, clock) }

  /** An origination that is still open: its history and its row. */
  ghost predicate OpenOk(rs: seq<Cdr>, f: Info, clock: nat) {
    && f.cdr.Some?
    && var c := f.cdr.value;
       var h := History(rs, c.uuid);
       && c.kind == OriginationRequest && c.status == 0 && 1 <= c.start <= clock && c.connect == 0 && c.end == 0
       && |h| == (if f.answered then 2 else 1) && h[0] == c
       && (f.answered ==> h[1].kind == OriginationFinal && h[1].status == 200)
       && c.uuid in Replay(rs).sessions
       && var r := Replay(rs).sessions[c.uuid];
          r.start == c.start && r.end == 0 && r.status == (if f.answered then 200 else 0)
  }

  ghost predicate FreshTry(c: Cdr, clock: nat) {
    c.kind == TerminationTry && c.status == 0 && 1 <= c.start <= clock && c.connect == 0 && c.end == 0
  }

  ghost predicate RowsOk(db: Db, clock: nat) {
    && (forall u :: u in db.sessions ==> RowOk(db.sessions[u], clock))
    && (forall k :: 0 <= k < |db.tries| ==> TryOk(db.tries[k], clock))
  }

  ghost predicate HistoriesOk(rs: seq<Cdr>, uuids: set<string>) {
    forall u: string ::
      LegalHistory(History(rs, u)) && (u !in uuids ==> History(rs, u) == [] && u !in Replay(rs).sessions)
  }

  ghost predicate OpensOk(rs: seq<Cdr>, clock: nat, uuids: set<string>, infos: map<Leg, Info>) {
    && (forall a :: a in infos && infos[a].origination ==>
      OpenOk(rs, infos[a], clock) && infos[a].cdr.value.uuid in uuids)
    && (forall a, b :: a in infos && b in infos && infos[a].origination && infos[b].origination && a != b ==>
          infos[a].cdr.Some? && infos[b].cdr.Some? && infos[a].cdr.value.uuid != infos[b].cdr.value.uuid)
  }

  ghost predicate Book(rs: seq<Cdr>, clock: nat, uuids: set<string>, infos: map<Leg, Info>) {
    RowsOk(Replay(rs), clock) && HistoriesOk(rs, uuids) && OpensOk(rs, clock, uuids, infos)
  }

  lemma LaterKeepsBook(rs: seq<Cdr>, clock: nat, uuids: set<string>, infos: map<Leg, Info>, now: nat)
    requires Book(rs, clock, uuids, infos) && clock <= now
    ensures Book(rs, now, uuids, infos)
  {
  }

  /** The originations of `less` are among those of `infos`. */
  ghost predicate Fewer(less: map<Leg, Info>, infos: map<Leg, Info>) {
    forall l :: l in less && less[l].origination ==> l in infos && infos[l] == less[l]
  }

  lemma FewerKeepsBook(rs: seq<Cdr>, clock: nat, uuids: set<string>, infos: map<Leg, Info>, less: map<Leg, Info>)
    requires Book(rs, clock, uuids, infos) && Fewer(less, infos)
    ensures Book(rs, clock, uuids, less)
  {
  }

  // ---- the record of a termination attempt ----

  lemma TryKeepsBook(rs: seq<Cdr>, clock: nat, uuids: set<string>, infos: map<Leg, Info>, c: Cdr)
    requires Book(rs, clock, uuids, infos) && c.kind == TerminationTry
    requires TryOk(TryRowOf(c), clock)
    ensures Book(rs + [c], clock, uuids, infos)
  {
    ReplaySnoc(rs, c);
    forall u: string ensures History(rs + [c], u) == History(rs, u) { HistorySnoc(rs, c, u); }
  }

  // ---- the record of a request ----

  lemma RequestRows(rs: seq<Cdr>, clock: nat, uuids: set<string>, c: Cdr)
    requires RowsOk(Replay(rs), clock) && HistoriesOk(rs, uuids) && c.kind == OriginationRequest && c.uuid !in uuids
    requires c.start == clock && 1 <= clock && c.end == 0 && c.status != 200
    ensures RowsOk(Replay(rs + [c]), clock) && HistoriesOk(rs + [c], uuids + {c.uuid})
    ensures c.uuid in Replay(rs + [c]).sessions
      && Replay(rs + [c]).sessions[c.uuid] == SessionRow(c.start, 0, 0, c.status, c.cause, "", "")
    ensures History(rs + [c], c.uuid) == [c]
  {
    ReplaySnoc(rs, c);
    forall u: string
      ensures History(rs + [c], u) == if c.uuid == u then [c] else History(rs, u)
    {
      HistorySnoc(rs, c, u);
    }
  }

  lemma OthersStayOpen(rs: seq<Cdr>, clock: nat, f: Info, c: Cdr)
    requires OpenOk(rs, f, clock) && c.uuid != f.cdr.value.uuid
    ensures OpenOk(rs + [c], f, clock)
  {
    ReplaySnoc(rs, c);
    HistorySnoc(rs, c, f.cdr.value.uuid);
  }

  lemma RequestKeepsBook(rs: seq<Cdr>, clock: nat, uuids: set<string>, infos: map<Leg, Info>, c: Cdr)
    requires Book(rs, clock, uuids, infos) && c.kind == OriginationRequest && c.uuid !in uuids
    requires c.start == clock && 1 <= clock && c.end == 0 && c.status != 200
    ensures Book(rs + [c], clock, uuids + {c.uuid}, infos)
  {
    RequestRows(rs, clock, uuids, c);
    forall a | a in infos && infos[a].origination
      ensures OpenOk(rs + [c], infos[a], clock)
    {
      OthersStayOpen(rs, clock, infos[a], c);
    }
  }

  lemma OpenedKeepsBook(rs: seq<Cdr>, clock: nat, uuids: set<string>, infos: map<Leg, Info>, c: Cdr, a: Leg, f: Info)
    requires Book(rs, clock, uuids, infos) && c.kind == OriginationRequest && c.uuid !in uuids
    requires c.start == clock && 1 <= clock && c.end == 0 && c.status == 0 && c.connect == 0
    requires f.origination && !f.answered && f.cdr == Some(c) && a !in infos
    ensures Book(rs + [c], clock, uuids + {c.uuid}, infos[a := f])
  {
    RequestRows(rs, clock, uuids, c);
    RequestKeepsBook(rs, clock, uuids, infos, c);
    assert OpenOk(rs + [c], f, clock);
    forall b | b in infos && infos[b].origination ensures infos[b].cdr.value.uuid in uuids {
      assert OpenOk(rs, infos[b], clock);
    }
    OpenedKeepsOpens(rs + [c], clock, uuids + {c.uuid}, infos, a, f);
  }

  lemma OpenedKeepsOpens(rs: seq<Cdr>, clock: nat, uuids: set<string>, infos: map<Leg, Info>, a: Leg, f: Info)
    requires OpensOk(rs, clock, uuids, infos) && OpenOk(rs, f, clock) && f.cdr.value.uuid in uuids && a !in infos
    requires forall b :: b in infos && infos[b].origination ==> infos[b].cdr.value.uuid != f.cdr.value.uuid
    ensures OpensOk(rs, clock, uuids, infos[a := f])
  {
  }

  // ---- the record that answers or ends a call ----

  /** `c` is the next record of the open origination `f`: its cancel, its final response, or its end. */
  ghost predicate NextRecord(f: Info, c: Cdr, clock: nat) {
    && f.cdr.Some? && c.uuid == f.cdr.value.uuid
    && match c.kind
       case OriginationCancel => !f.answered && c.end == clock
       case OriginationFinal => !f.answered && (if c.status == 200 then c.connect == clock else c.end == clock)
       case CallCleared => c.end == clock
       case _ => false
  }

  lemma NextHistories(rs: seq<Cdr>, clock: nat, uuids: set<string>, f: Info, c: Cdr)
    requires HistoriesOk(rs, uuids) && OpenOk(rs, f, clock) && NextRecord(f, c, clock) && c.uuid in uuids
    ensures HistoriesOk(rs + [c], uuids)
  {
    ReplaySnoc(rs, c);
    forall u: string ensures LegalHistory(History(rs + [c], u)) { HistorySnoc(rs, c, u); }
    forall u: string | u !in uuids ensures History(rs + [c], u) == [] { HistorySnoc(rs, c, u); }
  }

  lemma NextRows(rs: seq<Cdr>, clock: nat, f: Info, c: Cdr)
    requires RowsOk(Replay(rs), clock) && OpenOk(rs, f, clock) && NextRecord(f, c, clock)
    ensures RowsOk(Replay(rs + [c]), clock)
  {
    ReplaySnoc(rs, c);
  }

  lemma EndKeepsBook(rs: seq<Cdr>, clock: nat, uuids: set<string>, infos: map<Leg, Info>, a: Leg, c: Cdr,
      less: map<Leg, Info>)
    requires Book(rs, clock, uuids, infos) && a in infos && infos[a].origination && NextRecord(infos[a], c, clock)
    requires Fewer(less, infos) && a !in less
    ensures Book(rs + [c], clock, uuids, less)
  {
    NextHistories(rs, clock, uuids, infos[a], c);
    NextRows(rs, clock, infos[a], c);
    forall l | l in less && less[l].origination
      ensures OpenOk(rs + [c], less[l], clock)
    {
      OthersStayOpen(rs, clock, less[l], c);
    }
  }

  lemma AnswerKeepsBook(rs: seq<Cdr>, clock: nat, uuids: set<string>, infos: map<Leg, Info>, a: Leg, c: Cdr, f: Info)
    requires Book(rs, clock, uuids, infos) && a in infos && infos[a].origination && NextRecord(infos[a], c, clock)
    requires c.kind == OriginationFinal && c.status == 200
    requires f.origination && f.answered && f.cdr == infos[a].cdr
    ensures Book(rs + [c], clock, uuids, infos[a := f])
  {
    NextHistories(rs, clock, uuids, infos[a], c);
    NextRows(rs, clock, infos[a], c);
    ReplaySnoc(rs, c);
    HistorySnoc(rs, c, c.uuid);
    assert OpenOk(rs + [c], f, clock);
    forall l | l in infos && l != a && infos[l].origination
      ensures OpenOk(rs + [c], infos[l], clock)
    {
      OthersStayOpen(rs, clock, infos[l], c);
    }
  }
}
